/**
  The workspace tools of the MCP server as a state machine.  Its state is the workspace and the
  evidence the agent has gathered in this server process; a run is any sequence of tool calls,
  with restarts of the process in between.
*/
module ToolSession {
  import opened Wrappers
  import opened Utf8
  import opened Paths
  import opened Manifest
  import opened MutationPolicy
  import LineEndings
  import opened Overlay
  import opened Editor

  datatype ToolState = ToolState(readPaths: set<Path>, treePaths: set<Path>, treeObserved: bool, treeComplete: bool)

  const EMPTY: ToolState := ToolState({}, {}, false, false)

  datatype Session = Session(w: Workspace, t: ToolState)

  datatype Call =
    | TreeCall(root: Path, maxEntries: int, listing: Listing)
    | ReadCall(path: Path, maxBytes: int)
    | WriteCall(path: Path, content: Bytes)
    | CreateCall(path: Path, content: Bytes)
    | ReplaceCall(path: Path, oldText: Bytes, newText: Bytes, occurrences: int)
    | DeleteCall(path: Path)
    | Restart
    // a call stopped between its two file operations: the overlay has changed, the tombstones have
    // not; with a Restart after it, a crash there, and without one, a file error there
    | Torn(during: Call)

  function RecordRead(t: ToolState, path: Path): ToolState
  {
    t.(readPaths := t.readPaths + {path})
  }

  function RecordTree(t: ToolState, root: Path, listing: Listing): ToolState
  {
    var top := root == "" || root == ".";
    t.(treePaths := t.treePaths + (set p | p in listing.entries),
       treeObserved := t.treeObserved || top,
       treeComplete := t.treeComplete || (top && !listing.truncated))
  }

  predicate Blank(path: Path)
  {
    forall c | c in path :: c in " \t\n\r"
  }

  // resolveWorkspaceWritePath: a missing path is filled in when only one is possible.
  ghost function ResolvePath(policy: Policy, t: ToolState, requested: Path): Outcome<Path>
  {
    if !Blank(requested) then Ok(requested)
    else
      var paths := AuthorizedUpdatePaths(policy, t.readPaths);
      if |paths| == 1 then var p :| p in paths; Ok(p) else Refused
  }

  // A change of an existing file: seen by the agent, allowed by the policy, then one editor write.
  function Update(policy: Policy, s: Session, path: Path, write: Outcome<Written>): Session
  {
    if path !in s.t.readPaths || !ValidateUpdate(policy, path) then s
    else
      match write
      case Refused => s
      case Ok(r) => Session(r.workspace, RecordRead(s.t, path))
  }

  ghost function WriteStep(policy: Policy, s: Session, requested: Path, content: Bytes): Session
  {
    match ResolvePath(policy, s.t, requested)
    case Refused => s
    case Ok(path) => WriteInspectedStep(policy, s, path, content)
  }

  function WriteInspectedStep(policy: Policy, s: Session, path: Path, content: Bytes): Session
  {
    match Read(s.w, path, 0)
    case Found(current, _) => Update(policy, s, path, Write(s.w, path, content, Sha256(current)))
    case NotExist => s
    case Failed => s
  }

  function ReplaceStep(policy: Policy, s: Session, path: Path, oldText: Bytes, newText: Bytes,
                       occurrences: int): Session
  {
    match Read(s.w, path, 0)
    case Found(current, _) =>
      Update(policy, s, path, Replace(s.w, path, oldText, newText, Sha256(current), occurrences))
    case NotExist => s
    case Failed => s
  }

  function CreateStep(policy: Policy, s: Session, path: Path, content: Bytes): Session
  {
    if !Read(s.w, path, 0).NotExist? || !s.t.treeObserved || path in s.t.treePaths || !ValidateCreate(policy, path)
    then s
    else
      match Write(s.w, path, content, AbsentDigest)
      case Refused => s
      case Ok(r) => Session(r.workspace, RecordRead(s.t, path))
  }

  function DeleteStep(policy: Policy, s: Session, path: Path): Session
  {
    match Read(s.w, path, 0)
    case Found(current, _) =>
      if path !in s.t.readPaths || !ValidateDelete(policy, path) then s
      else
        (match Overlay.Delete(s.w, path, Sha256(current))
         case Refused => s
         case Ok(next) => s.(w := next))
    case NotExist => s
    case Failed => s
  }

  ghost function Step(policy: Policy, s: Session, call: Call): Session
  {
    match call
    case Restart => s.(t := EMPTY)
    case Torn(during) => s.(w := Step(policy, s, during).w.(tombstones := s.w.tombstones))
    case TreeCall(root, maxEntries, listing) =>
      if ListingPrefix(root).Ok? && IsListing(listing, s.w, ListingPrefix(root).value, EntryBound(maxEntries))
      then s.(t := RecordTree(s.t, root, listing)) else s
    case ReadCall(path, maxBytes) =>
      if Read(s.w, path, maxBytes).Found? then s.(t := RecordRead(s.t, path)) else s
    case WriteCall(requested, content) => WriteStep(policy, s, requested, content)
    case ReplaceCall(path, oldText, newText, occurrences) => ReplaceStep(policy, s, path, oldText, newText, occurrences)
    case CreateCall(path, content) => CreateStep(policy, s, path, content)
    case DeleteCall(path) => DeleteStep(policy, s, path)
  }

  ghost function Run(policy: Policy, s: Session, calls: seq<Call>): Session
  {
    if calls == [] then s else Step(policy, Run(policy, s, calls[..|calls| - 1]), calls[|calls| - 1])
  }

  // Every operation of the editor changes the overlay before the tombstones, so a torn call leaves
  // exactly what the first of its two file operations does.
  lemma TornIsFirstHalf(w: Workspace, path: Path, content: Bytes, expected: Digest)
    ensures Write(w, path, content, expected).Ok? ==>
      var r := Write(w, path, content, expected).value;
      WriteFile(w, path, r.content) == Ok(r.workspace.(tombstones := w.tombstones))
    ensures Overlay.Delete(w, path, expected).Ok? ==>
      RemoveCopy(w, path) == Overlay.Delete(w, path, expected).value.(tombstones := w.tombstones)
  {}

  // What one call does to the workspace: nothing, one write of a path, one removal of a path, or the
  // first half of either.
  datatype Effect =
    | Nothing
    | Wrote(path: Path, content: Bytes)
    | Removes(path: Path)
    | HalfWrote(path: Path, content: Bytes)
    | HalfRemoved(path: Path)

  // The evidence and the permission a write needs.
  ghost predicate MayWrite(policy: Policy, s: Session, path: Path)
  {
    && !Blocked(s.w, path) && Touchable(s.w.base, path, Limit(s.w.maxFileBytes, 0)) && EndingAt(s.w, path).Consistent?
    && if path in View(s.w) then path in s.t.readPaths && ValidateUpdate(policy, path)
       else s.t.treeObserved && path !in s.t.treePaths && ValidateCreate(policy, path)
  }

  ghost predicate MayRemove(policy: Policy, s: Session, path: Path)
  {
    path in View(s.w) && path in s.t.readPaths && ValidateDelete(policy, path)
  }

  ghost predicate HasEffect(policy: Policy, s: Session, next: Session, effect: Effect)
  {
    match effect
    case Nothing => next.w == s.w
    case Wrote(path, content) =>
      && MayWrite(policy, s, path)
      && View(next.w) == View(s.w)[path := content]
      && next.w.overlay.files == s.w.overlay.files[path := content]
      && next.w.tombstones == s.w.tombstones - {path}
      && path in next.t.readPaths
    case Removes(path) =>
      && MayRemove(policy, s, path)
      && View(next.w) == View(s.w) - {path}
      && next.w == Removed(s.w, path)
    case HalfWrote(path, content) =>
      && MayWrite(policy, s, path)
      && View(next.w) == (if path in s.w.tombstones then View(s.w) else View(s.w)[path := content])
      && next.w.overlay.files == s.w.overlay.files[path := content]
      && next.w.tombstones == s.w.tombstones && next.t == s.t
    case HalfRemoved(path) =>
      // what the base has at this path comes back
      && MayRemove(policy, s, path)
      && View(next.w) ==
        (if path in s.w.base.files then View(s.w)[path := s.w.base.files[path]] else View(s.w) - {path})
      && next.w == RemoveCopy(s.w, path) && next.t == s.t
  }

  // Every call keeps the workspace valid over the same base and has at most one of these effects.
  lemma StepEffect(policy: Policy, s: Session, call: Call) returns (effect: Effect)
    requires ValidWorkspace(s.w)
    ensures var next := Step(policy, s, call);
      && ValidWorkspace(next.w) && next.w.base == s.w.base && next.w.maxFileBytes == s.w.maxFileBytes
      && (call != Restart ==> s.t.readPaths <= next.t.readPaths && (s.t.treeObserved ==> next.t.treeObserved))
      && HasEffect(policy, s, next, effect)
      && (call.Torn? || !effect.HalfWrote?)
  {
    effect := Nothing;
    match call
    case Restart =>
    case Torn(during) =>
      var whole := StepEffect(policy, s, during);
      effect := TornEffect(policy, s, Step(policy, s, during), whole);
    case TreeCall(_, _, _) =>
    case ReadCall(_, _) =>
    case WriteCall(requested, content) =>
      var resolved := ResolvePath(policy, s.t, requested);
      if resolved.Ok? && Read(s.w, resolved.value, 0).Found? {
        var digest := Sha256(Read(s.w, resolved.value, 0).content);
        effect := UpdateEffect(policy, s, resolved.value, content, digest);
      }
    case ReplaceCall(path, oldText, newText, occurrences) =>
      if Read(s.w, path, 0).Found? {
        var digest := Sha256(Read(s.w, path, 0).content);
        var r := Replace(s.w, path, oldText, newText, digest, occurrences);
        ReplaceIsWrite(s.w, path, oldText, newText, digest, occurrences);
        if r.Ok? {
          var text := LineEndings.ReplaceAll(LineEndings.Normalize(View(s.w)[path]), LineEndings.Normalize(oldText),
                                             LineEndings.Normalize(newText));
          effect := UpdateEffect(policy, s, path, text, digest);
        }
      }
    case CreateCall(path, content) =>
      if Read(s.w, path, 0).NotExist? {
        effect := CreateEffect(policy, s, path, content);
      }
    case DeleteCall(path) =>
      if Read(s.w, path, 0).Found? {
        effect := DeleteEffect(policy, s, path);
      }
  }

  // Between the two file operations of a call the workspace is valid.
  lemma TornEffect(policy: Policy, s: Session, done: Session, whole: Effect) returns (effect: Effect)
    requires ValidWorkspace(s.w) && ValidWorkspace(done.w)
    requires done.w.base == s.w.base && done.w.maxFileBytes == s.w.maxFileBytes
    requires HasEffect(policy, s, done, whole)
    ensures var torn := s.(w := done.w.(tombstones := s.w.tombstones));
      ValidWorkspace(torn.w) && HasEffect(policy, s, torn, effect)
  {
    OtherTombstones(done.w, s.w);
    effect := FirstHalf(whole);
    HalfEffect(policy, s, done, s.(w := done.w.(tombstones := s.w.tombstones)), whole);
  }

  function FirstHalf(effect: Effect): Effect
  {
    match effect
    case Wrote(path, content) => HalfWrote(path, content)
    case Removes(path) => HalfRemoved(path)
    case other => other
  }

  lemma HalfEffect(policy: Policy, s: Session, done: Session, next: Session, effect: Effect)
    requires HasEffect(policy, s, done, effect) && next == s.(w := done.w.(tombstones := s.w.tombstones))
    requires done.w.base == s.w.base && done.w.maxFileBytes == s.w.maxFileBytes
    ensures HasEffect(policy, s, next, FirstHalf(effect))
  {
    match effect
    case Nothing => assert next.w == s.w;
    case Wrote(path, content) => HalfWriteView(s.w, next.w, path, content);
    case Removes(path) => HalfRemovalView(s.w, path); assert next.w == RemoveCopy(s.w, path);
    case HalfWrote(_, _) => assert next.w == done.w;
    case HalfRemoved(_) => assert next.w == done.w;
  }

  lemma HalfWriteView(w: Workspace, half: Workspace, path: Path, content: Bytes)
    requires half.base == w.base && half.tombstones == w.tombstones
    requires half.overlay.files == w.overlay.files[path := content]
    ensures View(half) == if path in w.tombstones then View(w) else View(w)[path := content]
  {}

  lemma HalfRemovalView(w: Workspace, path: Path)
    requires path in View(w)
    ensures View(RemoveCopy(w, path)) ==
      if path in w.base.files then View(w)[path := w.base.files[path]] else View(w) - {path}
  {}

  lemma OtherTombstones(w: Workspace, other: Workspace)
    requires ValidWorkspace(w) && ValidWorkspace(other) && w.base == other.base && w.maxFileBytes == other.maxFileBytes
    ensures ValidWorkspace(w.(tombstones := other.tombstones))
  {
    var next := w.(tombstones := other.tombstones);
    assert next.base == w.base && next.overlay == w.overlay;
    assert Separated(next);
    assert TextOnly(next);
  }

  lemma WrittenParts(w: Workspace, path: Path, content: Bytes, expected: Digest)
    requires ValidWorkspace(w) && Write(w, path, content, expected).Ok?
    ensures var r := Write(w, path, content, expected).value;
      && r.workspace.overlay.files == w.overlay.files[path := r.content]
      && r.workspace.tombstones == w.tombstones - {path}
      && !Blocked(w, path) && Touchable(w.base, path, Limit(w.maxFileBytes, 0)) && EndingAt(w, path).Consistent?
  {
    WriteRefines(w, path, content, expected);
    WriteTouches(w, path);
  }

  lemma WriteTouches(w: Workspace, path: Path)
    requires ValidWorkspace(w) && Normal(path)
    requires path in View(w) ==> Readable(View(w)[path], Limit(w.maxFileBytes, 0))
    ensures Touchable(w.base, path, Limit(w.maxFileBytes, 0))
  {
    if path in w.base.files && path !in View(w) {
      assert path in w.tombstones;
    }
  }

  lemma UpdateEffect(policy: Policy, s: Session, path: Path, content: Bytes, digest: Digest) returns (effect: Effect)
    requires ValidWorkspace(s.w) && Read(s.w, path, 0).Found?
    ensures var next := Update(policy, s, path, Write(s.w, path, content, digest));
      && ValidWorkspace(next.w) && next.w.base == s.w.base && next.w.maxFileBytes == s.w.maxFileBytes
      && s.t.readPaths <= next.t.readPaths && s.t.treeObserved == next.t.treeObserved
      && HasEffect(policy, s, next, effect) && !effect.HalfWrote?
  {
    effect := Nothing;
    ReadRefines(s.w, path, 0);
    if path in s.t.readPaths && ValidateUpdate(policy, path) && Write(s.w, path, content, digest).Ok? {
      WriteRefines(s.w, path, content, digest);
      WrittenParts(s.w, path, content, digest);
      effect := Wrote(path, Write(s.w, path, content, digest).value.content);
    }
  }

  lemma CreateEffect(policy: Policy, s: Session, path: Path, content: Bytes) returns (effect: Effect)
    requires ValidWorkspace(s.w) && Read(s.w, path, 0).NotExist?
    ensures var next := CreateStep(policy, s, path, content);
      && ValidWorkspace(next.w) && next.w.base == s.w.base && next.w.maxFileBytes == s.w.maxFileBytes
      && s.t.readPaths <= next.t.readPaths && s.t.treeObserved == next.t.treeObserved
      && HasEffect(policy, s, next, effect) && !effect.HalfWrote?
  {
    effect := Nothing;
    ReadRefines(s.w, path, 0);
    if s.t.treeObserved && path !in s.t.treePaths && ValidateCreate(policy, path)
      && Write(s.w, path, content, AbsentDigest).Ok? {
      WriteRefines(s.w, path, content, AbsentDigest);
      WrittenParts(s.w, path, content, AbsentDigest);
      effect := Wrote(path, Write(s.w, path, content, AbsentDigest).value.content);
    }
  }

  lemma DeleteEffect(policy: Policy, s: Session, path: Path) returns (effect: Effect)
    requires ValidWorkspace(s.w) && Read(s.w, path, 0).Found?
    ensures var next := DeleteStep(policy, s, path);
      && ValidWorkspace(next.w) && next.w.base == s.w.base && next.w.maxFileBytes == s.w.maxFileBytes
      && next.t == s.t
      && HasEffect(policy, s, next, effect) && !effect.HalfWrote?
  {
    effect := Nothing;
    var digest := Sha256(Read(s.w, path, 0).content);
    ReadRefines(s.w, path, 0);
    DeleteRefines(s.w, path, digest);
    if path in s.t.readPaths && ValidateDelete(policy, path) {
      RemovedRefines(s.w, path);
      effect := Removes(path);
    }
  }
}
