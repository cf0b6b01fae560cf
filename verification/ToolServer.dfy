/**
  The workspace tool handlers of the MCP server.  One object holds the evidence of the server
  process and shares the editor; each handler takes one step of the session machine.
*/
module ToolServer {
  import opened Wrappers
  import opened Utf8
  import opened Paths
  import opened Manifest
  import opened MutationPolicy
  import opened LineEndings
  import opened Overlay
  import opened Editor
  import opened ToolSession

  class ToolServer {
    const editor: Editor
    const policy: Policy
    var readPaths: set<Path>
    var treePaths: set<Path>
    var treeObserved: bool
    var treeComplete: bool

    constructor (editor: Editor, policy: Policy)
      ensures this.editor == editor && this.policy == policy && Evidence() == EMPTY
    {
      this.editor := editor;
      this.policy := policy;
      this.readPaths, this.treePaths := {}, {};
      this.treeObserved, this.treeComplete := false, false;
    }

    function Evidence(): ToolState
      reads this
    {
      ToolState(readPaths, treePaths, treeObserved, treeComplete)
    }

    function State(): Session
      reads this, editor
    {
      Session(editor.State(), Evidence())
    }

    method WorkspaceTree(root: Path, maxEntries: int) returns (listing: Outcome<Listing>)
      requires ValidWorkspace(editor.State())
      modifies this
      ensures listing.Refused? ==> State() == old(State())
      ensures listing.Ok? ==>
        && State() == Step(policy, old(State()), TreeCall(root, maxEntries, listing.value))
        && ListingPrefix(root).Ok?
        && IsListing(listing.value, editor.State(), ListingPrefix(root).value, EntryBound(maxEntries))
      // what it answers, and what it counts as evidence
      ensures listing.Ok? ==>
        && |listing.value.entries| <= (if 0 < maxEntries <= 5000 then maxEntries else 500)
        && (listing.value.truncated <==> listing.value.totalEntries > |listing.value.entries|)
      ensures listing.Ok? <==> root == "" || root == "." || Normal(root)
      ensures listing.Ok? ==>
        && treePaths == old(treePaths) + (set p | p in listing.value.entries) && readPaths == old(readPaths)
        && (treeObserved <==> old(treeObserved) || root == "" || root == ".")
        && (treeComplete <==> old(treeComplete) || ((root == "" || root == ".") && !listing.value.truncated))
    {
      listing := editor.TreeListing(root, maxEntries);
      if listing.Ok? {
        if root == "" || root == "." {
          treeObserved := true;
          treeComplete := treeComplete || !listing.value.truncated;
        }
        treePaths := treePaths + set p | p in listing.value.entries;
      }
    }

    method WorkspaceRead(path: Path, maxBytes: int) returns (file: ReadResult)
      requires ValidWorkspace(editor.State())
      modifies this
      ensures State() == Step(policy, old(State()), ReadCall(path, maxBytes))
      ensures file == Read(editor.State(), path, maxBytes)
      // it shows the visible content, and a path counts as read exactly when it was shown
      ensures var w := editor.State(); file.Found? <==>
        Normal(path) && path in View(w) && Readable(View(w)[path], Limit(w.maxFileBytes, maxBytes))
      ensures file.Found? ==> file.content == View(editor.State())[path]
      ensures file.Found? ==>
        && (maxBytes > 0 ==> |file.content| <= maxBytes)
        && |file.content| <= (if editor.State().maxFileBytes > 0 then editor.State().maxFileBytes else 262144)
      ensures readPaths == if file.Found? then old(readPaths) + {path} else old(readPaths)
      ensures treePaths == old(treePaths) && treeObserved == old(treeObserved) && treeComplete == old(treeComplete)
    {
      file := Read(editor.State(), path, maxBytes);
      if Normal(path) {
        ReadRefines(editor.State(), path, maxBytes);
      }
      if file.Found? {
        readPaths := readPaths + {path};
      }
    }

    method ResolveWritePath(requested: Path) returns (path: Outcome<Path>)
      ensures path == ResolvePath(policy, Evidence(), requested)
      ensures !Blank(requested) ==> path == Ok(requested)
      // a blank path stands for the only path that was read and may be updated
      ensures Blank(requested) ==> forall p :: path == Ok(p) <==> OnlyChoice(policy, readPaths, p)
    {
      if !Blank(requested) {
        return Ok(requested);
      }
      var paths := AuthorizedUpdatePaths(policy, readPaths);
      if |paths| == 1 {
        var only :| only in paths;
        OnlyMember(paths, only);
        forall p | p in readPaths && ValidateUpdate(policy, p) ensures p == only {
          assert p in paths;
        }
        assert only in AuthorizedUpdatePaths(policy, readPaths);
        return Ok(only);
      }
      forall p ensures !OnlyChoice(policy, readPaths, p) {
        if OnlyChoice(policy, readPaths, p) {
          OnlyChoiceIsAll(policy, readPaths, p);
        }
      }
      return Refused;
    }

    // An existing file that was read and that the policy lets the agent update.
    predicate MayUpdate(path: Path)
      reads this, editor
    {
      path in readPaths && ValidateUpdate(policy, path) && path in View(editor.State())
    }

    // Answers the stored content; refused also when the edit leaves the file as it was.
    method WorkspaceWrite(requested: Path, content: Bytes) returns (file: Outcome<Bytes>)
      requires ValidWorkspace(editor.State())
      modifies this, editor
      ensures ValidWorkspace(editor.State())
      ensures State() == Step(policy, old(State()), WriteCall(requested, content))
      ensures file.Refused? ==> View(editor.State()) == View(old(editor.State()))
      ensures file.Ok? ==> View(editor.State()) != View(old(editor.State()))
      // exactly when it goes through, and what it then stores
      ensures !Blank(requested) ==> var w := old(editor.State());
        && (file.Ok? <==>
              && old(MayUpdate(requested)) && CanWrite(w, requested, content, Sha256(View(w)[requested]))
              && Stored(content, EndingAt(w, requested).ending) != View(w)[requested])
        && (file.Ok? ==>
              && file.value == Stored(content, EndingAt(w, requested).ending)
              && View(editor.State()) == View(w)[requested := file.value])
      // without a path, the only path that may be updated is written
      ensures Blank(requested) && file.Ok? ==>
        exists path :: old(MayUpdate(path)) && WritesTo(old(editor.State()), editor.State(), path, content)
    {
      var resolved := ResolveWritePath(requested);
      if resolved.Refused? {
        return Refused;
      }
      file := WriteInspected(resolved.value, content);
    }

    method WriteInspected(path: Path, content: Bytes) returns (file: Outcome<Bytes>)
      requires ValidWorkspace(editor.State())
      modifies this, editor
      ensures ValidWorkspace(editor.State())
      ensures State() == WriteInspectedStep(policy, old(State()), path, content)
      ensures file.Refused? ==> View(editor.State()) == View(old(editor.State()))
      ensures var w := old(editor.State());
        && (file.Ok? <==>
              && old(MayUpdate(path)) && CanWrite(w, path, content, Sha256(View(w)[path]))
              && Stored(content, EndingAt(w, path).ending) != View(w)[path])
        && (file.Ok? ==>
              && file.value == Stored(content, EndingAt(w, path).ending)
              && View(editor.State()) == View(w)[path := file.value])
    {
      var current := Read(editor.State(), path, 0);
      if Normal(path) {
        ReadRefines(editor.State(), path, 0);
      }
      if !current.Found? || path !in readPaths || !ValidateUpdate(policy, path) {
        return Refused;
      }
      WriteRefines(editor.State(), path, content, Sha256(current.content));
      file := editor.Write(path, content, Sha256(current.content));
      if file.Refused? {
        return;
      }
      StoredAsBefore(old(editor.State()), editor.State(), path, file.value);
      readPaths := readPaths + {path};
      if file.value == current.content {
        file := Refused;
      }
    }

    method WorkspaceReplace(path: Path, oldText: Bytes, newText: Bytes, occurrences: int) returns (file: Outcome<Bytes>)
      requires ValidWorkspace(editor.State())
      modifies this, editor
      ensures ValidWorkspace(editor.State())
      ensures State() == Step(policy, old(State()), ReplaceCall(path, oldText, newText, occurrences))
      ensures file.Refused? ==> View(editor.State()) == View(old(editor.State()))
      // exactly when it goes through: the old text stands there as often as expected, and something changes
      ensures var w := old(editor.State()); file.Ok? <==>
        && old(MayUpdate(path)) && CanReplace(w, path, oldText, newText, Sha256(View(w)[path]), occurrences)
        && Stored(ReplaceAll(Normalize(View(w)[path]), Normalize(oldText), Normalize(newText)),
                  EndingAt(w, path).ending)
           != View(w)[path]
      // and then every occurrence of the old text has become the new text, at this path only
      ensures file.Ok? ==> var w := old(editor.State());
        && Normalize(file.value) == ReplaceAll(Normalize(View(w)[path]), Normalize(oldText), Normalize(newText))
        && View(editor.State()) == View(w)[path := file.value] && file.value != View(w)[path]
    {
      var current := Read(editor.State(), path, 0);
      ReplaceAnswers(editor.State(), path, oldText, newText, occurrences);
      if !current.Found? || path !in readPaths || !ValidateUpdate(policy, path) {
        return Refused;
      }
      file := editor.Replace(path, oldText, newText, Sha256(current.content), occurrences);
      if file.Refused? {
        return;
      }
      StoredAsBefore(old(editor.State()), editor.State(), path, file.value);
      readPaths := readPaths + {path};
      if file.value == current.content {
        file := Refused;
      }
    }

    method WorkspaceCreate(path: Path, content: Bytes) returns (file: Outcome<Bytes>)
      requires ValidWorkspace(editor.State())
      modifies this, editor
      ensures ValidWorkspace(editor.State())
      ensures State() == Step(policy, old(State()), CreateCall(path, content))
      // exactly when it goes through: listed and not there, and the policy lets the agent create it
      ensures file.Ok? <==>
        && old(treeObserved) && path !in old(treePaths) && path !in View(old(editor.State()))
        && ValidateCreate(policy, path) && CanWrite(old(editor.State()), path, content, AbsentDigest)
      ensures file.Ok? ==>
        && file.value == Normalize(content)
        && View(editor.State()) == View(old(editor.State()))[path := file.value]
        && readPaths == old(readPaths) + {path}
      ensures file.Refused? ==> State() == old(State())
    {
      var current := Read(editor.State(), path, 0);
      if Normal(path) {
        ReadRefines(editor.State(), path, 0);
      }
      if !current.NotExist? || !treeObserved || path in treePaths || !ValidateCreate(policy, path) {
        return Refused;
      }
      WriteRefines(editor.State(), path, content, AbsentDigest);
      file := editor.Write(path, content, AbsentDigest);
      if file.Ok? {
        readPaths := readPaths + {path};
      }
    }

    method WorkspaceDelete(path: Path) returns (done: bool)
      requires ValidWorkspace(editor.State())
      modifies this, editor
      ensures ValidWorkspace(editor.State())
      ensures State() == Step(policy, old(State()), DeleteCall(path))
      // exactly when it goes through: a file that was read and that the policy lets the agent delete
      ensures var w := old(editor.State()); done <==>
        && path in old(readPaths) && ValidateDelete(policy, path)
        && Normal(path) && path in View(w) && Readable(View(w)[path], Limit(w.maxFileBytes, 0))
      ensures done ==> View(editor.State()) == View(old(editor.State())) - {path}
      ensures !done ==> State() == old(State())
    {
      var current := Read(editor.State(), path, 0);
      if Normal(path) {
        ReadRefines(editor.State(), path, 0);
      }
      if !current.Found? || path !in readPaths || !ValidateDelete(policy, path) {
        return false;
      }
      done := editor.Delete(path, Sha256(current.content));
    }
  }

  // Of the paths read, this one alone may be updated.
  predicate OnlyChoice(policy: Policy, paths: set<Path>, path: Path)
  {
    path in paths && ValidateUpdate(policy, path) && forall p | p in paths && ValidateUpdate(policy, p) :: p == path
  }

  lemma OnlyChoiceIsAll(policy: Policy, paths: set<Path>, path: Path)
    requires OnlyChoice(policy, paths, path)
    ensures AuthorizedUpdatePaths(policy, paths) == {path}
  {}

  // One path of the view has become this content in the ending it had.
  predicate WritesTo(w: Workspace, next: Workspace, path: Path, content: Bytes)
  {
    path in View(w) && EndingAt(w, path).Consistent?
    && View(next) == View(w)[path := Stored(content, EndingAt(w, path).ending)]
  }

  // When an inspected file can be replaced in, and the text this stores.
  lemma ReplaceAnswers(w: Workspace, path: Path, oldText: Bytes, newText: Bytes, occurrences: int)
    requires ValidWorkspace(w)
    ensures Read(w, path, 0).Found? ==> path in View(w) && Read(w, path, 0).content == View(w)[path]
    ensures path in View(w) ==> var digest := Sha256(View(w)[path]);
      CanReplace(w, path, oldText, newText, digest, occurrences) ==>
        && Read(w, path, 0).Found?
        && Replace(w, path, oldText, newText, digest, occurrences).Ok?
        && var text := ReplaceAll(Normalize(View(w)[path]), Normalize(oldText), Normalize(newText));
           Replace(w, path, oldText, newText, digest, occurrences).value.content ==
             Stored(text, EndingAt(w, path).ending)
           && Normalize(Stored(text, EndingAt(w, path).ending)) == text
  {
    if Normal(path) {
      ReadRefines(w, path, 0);
    }
    if path in View(w) && CanReplace(w, path, oldText, newText, Sha256(View(w)[path]), occurrences) {
      var digest := Sha256(View(w)[path]);
      var text := ReplaceAll(Normalize(View(w)[path]), Normalize(oldText), Normalize(newText));
      ReplaceIsWrite(w, path, oldText, newText, digest, occurrences);
      ReplaceRefines(w, path, oldText, newText, digest, occurrences);
      WriteRefines(w, path, text, digest);
    }
  }

  lemma StoredAsBefore(w: Workspace, next: Workspace, path: Path, content: Bytes)
    requires path in View(w) && View(next) == View(w)[path := content]
    ensures View(next) == View(w) <==> content == View(w)[path]
  {}

  lemma OnlyMember<T>(s: set<T>, x: T)
    requires |s| == 1 && x in s
    ensures forall y | y in s :: y == x
  {
    assert |s - {x}| == 0;
  }
}
