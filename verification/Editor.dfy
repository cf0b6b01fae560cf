/**
  The workspace editor: an object over the base checkout, the overlay files and the tombstones.
  Each method is tied to the workspace functions of module Overlay and, through them, to the view.
*/
module Editor {
  import opened Wrappers
  import opened Utf8
  import opened Paths
  import opened FileTree
  import opened LineEndings
  import opened Manifest
  import opened Overlay

  datatype Listing = Listing(entries: seq<Path>, totalEntries: nat, truncated: bool)

  predicate InSubtree(prefix: Path, path: Path)
  {
    prefix == "" || path == prefix || prefix + "/" <= path
  }

  function ListingPrefix(root: Path): Outcome<Path>
  {
    if root == "" || root == "." then Ok("") else if Normal(root) then Ok(root) else Refused
  }

  function EntryBound(maxEntries: int): nat
  {
    if maxEntries <= 0 || maxEntries > 5000 then 500 else maxEntries
  }

  ghost predicate IsListing(listing: Listing, w: Workspace, prefix: Path, bound: nat)
  {
    exists all: seq<Path> ::
      && Sorted(all) && (forall p :: p in all <==> p in Listed(w) && InSubtree(prefix, p))
      && listing.totalEntries == |all| && listing.truncated == (|all| > bound)
      && listing.entries == if |all| > bound then all[..bound] else all
  }

  // A listing that is not truncated shows exactly the visible paths below its root.
  lemma CompleteListing(listing: Listing, w: Workspace, prefix: Path, bound: nat)
    requires IsListing(listing, w, prefix, bound)
    ensures forall p | p in listing.entries :: p in Listed(w) && InSubtree(prefix, p)
    ensures !listing.truncated ==> forall p | p in Listed(w) && InSubtree(prefix, p) :: p in listing.entries
    ensures Sorted(listing.entries)
  {
    var all: seq<Path> :|
      && Sorted(all) && (forall p :: p in all <==> p in Listed(w) && InSubtree(prefix, p))
      && listing.totalEntries == |all| && listing.truncated == (|all| > bound)
      && listing.entries == if |all| > bound then all[..bound] else all;
    assert forall p | p in listing.entries :: p in all;
  }

  lemma VisibleBelow(w: Workspace, prefix: Path, kept: set<Path>)
    requires kept == set p | p in w.base.files.Keys + w.overlay.files.Keys && !Excluded(p) && p !in w.tombstones
                             && InSubtree(prefix, p)
    ensures forall p :: p in kept <==> p in Listed(w) && InSubtree(prefix, p)
  {}

  // The paths whose content the manifest has to look at.
  function Tracked(w: Workspace): set<Path>
  {
    Reported(w).Keys + w.tombstones
  }

  function Collected(w: Workspace, paths: seq<Path>): (files: seq<ChangedFile>)
  {
    if paths == [] then []
    else
      var p := paths[|paths| - 1];
      Collected(w, paths[..|paths| - 1]) +
      match EntryFor(p, Get(w.base.files, p), Get(Recorded(w), p))
      case None => []
      case Some(file) => [file]
  }

  lemma CollectedStep(w: Workspace, paths: seq<Path>, p: Path)
    ensures Collected(w, paths + [p]) == Collected(w, paths) +
      match EntryFor(p, Get(w.base.files, p), Get(Recorded(w), p)) case None => [] case Some(file) => [file]
  {
    assert (paths + [p])[..|paths|] == paths;
  }

  lemma {:induction false} CollectedIsDiff(w: Workspace, paths: seq<Path>)
    requires Sorted(paths)
    ensures Sorted(PathsOf(Collected(w, paths)))
    ensures forall f | f in Collected(w, paths) ::
      f.path in paths && EntryFor(f.path, Get(w.base.files, f.path), Get(Recorded(w), f.path)) == Some(f)
    ensures forall p | p in paths && Get(w.base.files, p) != Get(Recorded(w), p) :: p in PathsOf(Collected(w, paths))
  {
    if paths != [] {
      var n := |paths| - 1;
      var p, front := paths[n], paths[..n];
      CollectedIsDiff(w, front);
      var earlier, files := Collected(w, front), Collected(w, paths);
      assert paths == front + [p];
      forall i, j | 0 <= i < j < |files| ensures Less(PathsOf(files)[i], PathsOf(files)[j]) {
        assert earlier[i] in earlier;
        if j < |earlier| {
          assert Less(PathsOf(earlier)[i], PathsOf(earlier)[j]);
        } else {
          var k :| 0 <= k < n && paths[k] == earlier[i].path;
          assert Less(paths[k], paths[n]);
        }
      }
      forall q | q in paths && Get(w.base.files, q) != Get(Recorded(w), q) ensures q in PathsOf(files) {
        if q != p {
          assert q in PathsOf(earlier);
          var k :| 0 <= k < |earlier| && earlier[k].path == q;
          assert PathsOf(files)[k] == q;
        } else {
          assert PathsOf(files)[|files| - 1] == q;
        }
      }
    }
  }

  lemma CollectedIsManifest(w: Workspace, paths: seq<Path>)
    requires Sorted(paths) && forall p :: p in paths <==> p in Tracked(w)
    ensures IsManifestOf(Collected(w, paths), w)
  {
    CollectedIsDiff(w, paths);
    SortedAreDistinct(Collected(w, paths));
    forall p | Get(w.base.files, p) != Get(Recorded(w), p) ensures p in paths {
      assert p in Tracked(w);
    }
  }

  class Editor {
    var base: Tree
    var overlay: Tree
    var tombstones: set<Path>
    const maxFileBytes: int

    constructor (base: Tree, maxFileBytes: int)
      requires WellFormed(base)
      ensures State() == Fresh(base, maxFileBytes) && ValidWorkspace(State())
    {
      this.base := base;
      this.overlay := Tree(map[], {});
      this.tombstones := {};
      this.maxFileBytes := maxFileBytes;
    }

    function State(): Workspace
      reads this
    {
      Workspace(base, overlay, tombstones, maxFileBytes)
    }

    method Write(path: Path, content: Bytes, expectedDigest: Digest) returns (file: Outcome<Bytes>)
      requires ValidWorkspace(State())
      modifies this`overlay, this`tombstones
      ensures ValidWorkspace(State())
      ensures file.Ok? <==> CanWrite(old(State()), path, content, expectedDigest)
      ensures file.Ok? ==> View(State()) == View(old(State()))[path := file.value]
      ensures match Overlay.Write(old(State()), path, content, expectedDigest)
        case Refused => file == Refused && State() == old(State())
        case Ok(r) => file == Ok(r.content) && State() == r.workspace
    {
      WriteRefines(State(), path, content, expectedDigest);
      if !Normal(path) {
        return Refused;
      }
      var ending := EndingForWrite(State(), path, expectedDigest);
      if ending.Refused? {
        return Refused;
      }
      var normalized := Normalize(content);
      if ending.value == CrLf {
        normalized := ReplaceAll(normalized, [LF], CRLF);
      }
      if !Storable(normalized, Limit(maxFileBytes, 0)) || BelowFile(base, path) {
        return Refused;
      }
      var written := Put(overlay, path, normalized);
      if written.Refused? {
        return Refused;
      }
      overlay := written.value;
      tombstones := tombstones - {path};
      return Ok(normalized);
    }

    method Replace(path: Path, oldText: Bytes, newText: Bytes, expectedDigest: Digest, expectedOccurrences: int)
        returns (file: Outcome<Bytes>)
      requires ValidWorkspace(State())
      modifies this`overlay, this`tombstones
      ensures ValidWorkspace(State())
      ensures file.Ok? <==> CanReplace(old(State()), path, oldText, newText, expectedDigest, expectedOccurrences)
      ensures file.Ok? ==> View(State()) == View(old(State()))[path := file.value]
      ensures match Overlay.Replace(old(State()), path, oldText, newText, expectedDigest, expectedOccurrences)
        case Refused => file == Refused && State() == old(State())
        case Ok(r) => file == Ok(r.content) && State() == r.workspace
    {
      ReplaceIsWrite(State(), path, oldText, newText, expectedDigest, expectedOccurrences);
      var pattern, with := Normalize(oldText), Normalize(newText);
      if pattern == [] {
        return Refused;
      }
      var occurrences := expectedOccurrences;
      if occurrences <= 0 {
        occurrences := 1;
      }
      var current := Overlay.Read(State(), path, 0);
      if !current.Found? || Sha256(current.content) != expectedDigest {
        return Refused;
      }
      var text := Normalize(current.content);
      if Count(text, pattern) != occurrences {
        return Refused;
      }
      file := Write(path, ReplaceFirst(text, pattern, with, occurrences), expectedDigest);
    }

    method Delete(path: Path, expectedDigest: Digest) returns (done: bool)
      requires ValidWorkspace(State())
      modifies this`overlay, this`tombstones
      ensures ValidWorkspace(State())
      ensures done <==>
        && Normal(path) && path in View(old(State()))
        && Readable(View(old(State()))[path], Limit(maxFileBytes, 0))
          && expectedDigest == Sha256(View(old(State()))[path])
      ensures View(State()) == if done then View(old(State())) - {path} else View(old(State()))
      ensures match Overlay.Delete(old(State()), path, expectedDigest)
        case Refused => !done && State() == old(State())
        case Ok(next) => done && State() == next
    {
      DeleteRefines(State(), path, expectedDigest);
      if Overlay.Delete(State(), path, expectedDigest).Ok? {
        RemovedRefines(State(), path);
      }
      var current := Overlay.Read(State(), path, 0);
      if !current.Found? || Sha256(current.content) != expectedDigest {
        return false;
      }
      var original := ReadAt(base, path, Limit(maxFileBytes, 0));
      if original.NotAFile? {
        return false;
      }
      overlay := Drop(overlay, path);
      if original.Absent? {
        tombstones := tombstones - {path};
      } else {
        tombstones := tombstones + {path};
      }
      return true;
    }

    method VisibleIn(all: set<Path>, prefix: Path) returns (kept: set<Path>)
      ensures kept == set p | p in all && p !in tombstones && InSubtree(prefix, p)
    {
      kept := {};
      var left := all;
      while left != {}
        invariant left <= all
        invariant kept == set p | p in all - left && p !in tombstones && InSubtree(prefix, p)
        decreases left
      {
        var current :| current in left;
        left := left - {current};
        if current !in tombstones && InSubtree(prefix, current) {
          kept := kept + {current};
        }
      }
    }

    method TreeListing(root: Path, maxEntries: int) returns (listing: Outcome<Listing>)
      requires ValidWorkspace(State())
      ensures listing.Ok? <==> ListingPrefix(root).Ok?
      ensures listing.Ok? ==> IsListing(listing.value, State(), ListingPrefix(root).value, EntryBound(maxEntries))
    {
      if ListingPrefix(root).Refused? {
        return Refused;
      }
      var prefix, bound := ListingPrefix(root).value, EntryBound(maxEntries);
      var all := Walk(base);
      var more := Walk(overlay);
      all := all + more;
      var kept := VisibleIn(all, prefix);
      var entries := SortPaths(kept);
      VisibleBelow(State(), prefix, kept);
      ghost var sorted := entries;
      assert Sorted(sorted) && (forall p :: p in sorted <==> p in Listed(State()) && InSubtree(prefix, p));
      var total := |entries|;
      if total > bound {
        entries := entries[..bound];
      }
      return Ok(Listing(entries, total, total > bound));
    }

    // Overlay files and deletion markers, sorted.
    method ChangedPaths() returns (paths: Outcome<seq<Path>>)
      requires ValidWorkspace(State())
      ensures paths.Ok? && Sorted(paths.value) && forall p :: p in paths.value <==> p in Tracked(State())
    {
      var changed := Walk(overlay);
      var markers := ReadMarkers(tombstones);
      TombstonesNormal(State());
      if markers.Refused? {
        return Refused;
      }
      var sorted := SortPaths(changed + markers.value);
      return Ok(sorted);
    }

    // The manifest never fails in a state the editor itself produced.
    method Changes() returns (files: Outcome<seq<ChangedFile>>)
      requires ValidWorkspace(State())
      ensures files.Ok? && IsManifestOf(files.value, State())
    {
      var changed := ChangedPaths();
      if changed.Refused? {
        return Refused;
      }
      var paths := changed.value;
      var result: seq<ChangedFile> := [];
      for i := 0 to |paths|
        invariant result == Collected(State(), paths[..i])
      {
        var entry := EntryOf(paths[i]);
        if entry.Refused? {
          return Refused;
        }
        CollectedStep(State(), paths[..i], paths[i]);
        assert paths[..i + 1] == paths[..i] + [paths[i]];
        if entry.value.Some? {
          result := result + [entry.value.value];
        }
      }
      assert paths[..|paths|] == paths;
      CollectedIsManifest(State(), paths);
      return Ok(result);
    }

    // Compare base and overlay at one path.
    method EntryOf(path: Path) returns (entry: Outcome<Option<ChangedFile>>)
      requires ValidWorkspace(State()) && path in Tracked(State())
      ensures entry == Ok(EntryFor(path, Get(base.files, path), Get(Recorded(State()), path)))
    {
      TrackedReads(State(), path);
      var limit := Limit(maxFileBytes, 0);
      var original := ReadAt(base, path, limit);
      var copy := ReadAt(overlay, path, limit);
      if original.NotAFile? || copy.NotAFile? {
        return Refused;
      }
      if path in tombstones {
        copy := Absent;
      } else if copy.Absent? {
        copy := original;
      }
      if original == copy {
        return Ok(None);
      }
      var file := ChangedFile(path, Add, AbsentDigest, Unset, None);
      if original.File? {
        file := file.(baseDigest := Sha256(original.content),
                      action := if copy.File? then Action.Modify else Action.Delete);
      }
      if copy.File? {
        file := file.(resultContent := Some(copy.content), resultDigest := Sha256(copy.content));
      }
      return Ok(Some(file));
    }
  }

  method Walk(tree: Tree) returns (visited: set<Path>)
    ensures visited == set p | p in tree.files && !Excluded(p)
  {
    visited := {};
    var left := tree.files.Keys;
    while left != {}
      invariant left <= tree.files.Keys
      invariant visited == set p | p in tree.files.Keys - left && !Excluded(p)
      decreases left
    {
      var path :| path in left;
      left := left - {path};
      if !Excluded(path) {
        visited := visited + {path};
      }
    }
  }

  // The paths written in the deletion markers; one that is not a proper path spoils the manifest.
  method ReadMarkers(tombstones: set<Path>) returns (paths: Outcome<set<Path>>)
    ensures paths == if forall p | p in tombstones :: Normal(p) then Ok(tombstones) else Refused
  {
    var changed, left := {}, tombstones;
    while left != {}
      invariant left <= tombstones && changed == tombstones - left
      invariant forall p | p in changed :: Normal(p)
      decreases left
    {
      var marker :| marker in left;
      left := left - {marker};
      if !Normal(marker) {
        return Refused;
      }
      changed := changed + {marker};
    }
    assert changed == tombstones;
    return Ok(changed);
  }

  lemma TombstonesNormal(w: Workspace)
    requires ValidWorkspace(w)
    ensures forall p | p in w.tombstones :: Normal(p)
  {
    forall p | p in w.tombstones ensures Normal(p) {
      assert Touchable(w.base, p, Limit(w.maxFileBytes, 0));
    }
  }

  // A tracked path is a readable file or absent in either tree.
  lemma TrackedReads(w: Workspace, path: Path)
    requires ValidWorkspace(w) && path in Tracked(w)
    ensures ReadAt(w.base, path, Limit(w.maxFileBytes, 0)) ==
      (if path in w.base.files then File(w.base.files[path]) else Absent)
    ensures ReadAt(w.overlay, path, Limit(w.maxFileBytes, 0)) ==
      (if path in w.overlay.files then File(w.overlay.files[path]) else Absent)
  {
    NotBelowWhenFile(w, path);
    assert path in w.overlay.files || path in w.tombstones;
    assert Touchable(w.base, path, Limit(w.maxFileBytes, 0));
  }
}
