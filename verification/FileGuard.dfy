/** Reading and changing files under the guard of content hashes (`file.py`, `WorkContext` snapshots). */
module FileGuard {
  import opened Model
  import opened TextEdits
  import opened TextFiles

  /** `Sync` reads and writes the local disk and then pushes the file. */
  datatype Target = Local | Remote | Sync

  /** The bytes of the files on the two sides. */
  datatype Disks = Disks(local: map<string, string>, remote: map<string, string>)

  datatype Change = Write(content: string) | Edit(oldText: string, newText: string, replaceAll: bool)

  /** `old_text` has at least one character. */
  predicate ValidChange(change: Change) {
    change.Edit? ==> change.oldText != ""
  }

  datatype Planned = Content(text: string) | ContextNotFound | ContextAmbiguous

  datatype Outcome = Landed | FileChanged | UnguardedDenied | NotFound | Ambiguous

  /** The text a target shows, `None` for a missing file.  Only the sync target translates newlines. */
  function TextAt(disks: Disks, target: Target, path: string): Option<string> {
    match target
    case Local => if path in disks.local then Some(disks.local[path]) else None
    case Remote => if path in disks.remote then Some(disks.remote[path]) else None
    case Sync => if path in disks.local then Some(ReadText(disks.local[path])) else None
  }

  /** `_read_text_for_write`: a missing file reads as empty. */
  function CurrentText(disks: Disks, target: Target, path: string): string {
    var text := TextAt(disks, target, path);
    if text.Some? then text.value else ""
  }

  /** Write the content; `pushed`: the push after a sync write reaches the remote file. */
  function Stored(disks: Disks, target: Target, path: string, content: string, pushed: bool): Disks {
    match target
    case Local => disks.(local := disks.local[path := content])
    case Remote => disks.(remote := disks.remote[path := content])
    case Sync =>
      var local := disks.local[path := content];
      Disks(local, if pushed then disks.remote[path := ReadText(content)] else disks.remote)
  }

  /** The first half of `_prepare_edit_change`: what the change would make of the file. */
  function Plan(current: Option<string>, change: Change): Planned
    requires ValidChange(change)
  {
    match change
    case Write(content) => Content(content)
    case Edit(oldText, newText, replaceAll) =>
      if current == None || Count(current.value, oldText) == 0 then ContextNotFound
      else if Count(current.value, oldText) > 1 && !replaceAll then ContextAmbiguous
      else Content(Replace(current.value, oldText, newText, if replaceAll then Count(current.value, oldText) else 1))
  }

  /** The guard: the current content is the one the caller names or the context saw last, or neither exists.
      A caller's string that is no digest behaves like the digest of another text. */
  predicate Guarded(actual: Digest, expected: Option<Digest>, cached: Option<Digest>) {
    expected == Some(actual) || cached == Some(actual) || (expected == None && cached == None)
  }

  datatype Prepared = Prepared(expected: Option<Digest>, ignored: Option<Digest>)

  /** `_prepare_text_change_from_current`: the hash a change is checked against, or none when it is refused. */
  method PrepareFromCurrent(currentText: string, expectedSha256: Option<Digest>, cached: Option<Digest>)
    returns (prepared: Option<Prepared>)
    ensures prepared.Some? <==> Guarded(Sha256(currentText), expectedSha256, cached)
    ensures prepared.Some? ==>
              && (prepared.value.expected == None <==> expectedSha256 == None && cached == None)
              && (prepared.value.expected.Some? ==> prepared.value.expected == Some(Sha256(currentText)))
              && (prepared.value.ignored.Some? <==> expectedSha256.Some? && expectedSha256 != Some(Sha256(currentText)))
  {
    var before := Sha256(currentText);
    var expected := expectedSha256;
    var ignored := None;
    if expected == None && cached != None {
      expected := cached;
    } else if expected != None && Some(before) != expected && cached != None && Some(before) == cached {
      ignored := expected;
      expected := cached;
    }
    if expected != None && Some(before) != expected {
      return None;
    }
    prepared := Some(Prepared(expected, ignored));
  }

  /** What was seen and done: `Saw` a text by reading, a change `Tried`. */
  datatype Event =
    | Saw(path: string, text: string)
    | Tried(path: string, replaced: string, expected: Option<Digest>, outcome: Outcome, content: string)

  /** The text of `path` that the context read or wrote last. */
  function LastSeen(log: seq<Event>, path: string): Option<string> {
    if log == [] then None
    else
      var last := log[|log| - 1];
      if last.path != path then LastSeen(log[..|log| - 1], path)
      else match last
           case Saw(_, text) => Some(text)
           case Tried(_, _, _, Landed, content) => Some(content)
           case _ => LastSeen(log[..|log| - 1], path)
  }

  function DigestOf(text: Option<string>): Option<Digest> {
    if text.Some? then Some(Sha256(text.value)) else None
  }

  /** A change replaces only what the caller named or the context saw last, unless nothing is known of the
      file and that is allowed; and it is refused as changed only when this is not so. */
  predicate Justified(allowUnguarded: bool, history: seq<Event>, e: Event) {
    e.Tried? ==>
      var known := e.expected != None || LastSeen(history, e.path) != None;
      var matches := e.expected == Some(Sha256(e.replaced)) || LastSeen(history, e.path) == Some(e.replaced);
      && (e.outcome == Landed ==> matches || (!known && allowUnguarded))
      && (e.outcome == FileChanged ==> known && !matches)
      && (e.outcome == UnguardedDenied ==> !known && !allowUnguarded)
  }

  predicate AllJustified(allowUnguarded: bool, log: seq<Event>) {
    log == [] || (AllJustified(allowUnguarded, log[..|log| - 1]) &&
        Justified(allowUnguarded, log[..|log| - 1], log[|log| - 1]))
  }

  class FileTools {
    const allowUnguarded: bool
    var disks: Disks
    /** `file_snapshots` of the context: by path only, whatever the target. */
    var snapshots: map<string, Digest>
    /** History. */
    ghost var log: seq<Event>

    constructor (disks: Disks, allowUnguarded: bool)
      ensures Valid() && log == [] && this.disks == disks && this.allowUnguarded == allowUnguarded
    {
      this.disks, this.allowUnguarded, snapshots, log := disks, allowUnguarded, map[], [];
    }

    /** The snapshots are the digests of what was seen last, and every change so far was justified. */
    ghost predicate Valid()
      reads this
    {
      && (forall p :: Snapshot(p) == DigestOf(LastSeen(log, p)))
      && AllJustified(allowUnguarded, log)
    }

    function Snapshot(path: string): Option<Digest>
      reads this
    {
      if path in snapshots then Some(snapshots[path]) else None
    }

    ghost method Record(e: Event)
      requires AllJustified(allowUnguarded, log) && Justified(allowUnguarded, log, e)
      modifies this`log
      ensures log == old(log) + [e] && AllJustified(allowUnguarded, log)
      ensures forall p :: LastSeen(log, p) ==
                if p != e.path then LastSeen(old(log), p)
                else match e
                     case Saw(_, text) => Some(text)
                     case Tried(_, _, _, Landed, content) => Some(content)
                     case _ => LastSeen(old(log), p)
    {
      log := log + [e];
      assert log[..|log| - 1] == old(log);
    }

    /** `read_file`. */
    method Read(target: Target, path: string) returns (text: Option<string>)
      requires Valid()
      modifies this`snapshots, this`log
      ensures Valid()
      ensures text == TextAt(disks, target, path)
      ensures log == if text.Some? then old(log) + [Saw(path, text.value)] else old(log)
    {
      text := TextAt(disks, target, path);
      if text.Some? {
        snapshots := snapshots[path := Sha256(text.value)];
        Record(Saw(path, text.value));
      }
    }

    /** `write_file` and `edit_file`: prepare, and unless that refuses, write.  The preview's refusal of an
        unguarded write is part of it. */
    method Apply(target: Target, path: string, change: Change, expectedSha256: Option<Digest>, pushed: bool)
      returns (outcome: Outcome)
      requires Valid() && ValidChange(change)
      modifies this
      ensures Valid()
      ensures var current := CurrentText(old(disks), target, path);
              match Plan(TextAt(old(disks), target, path), change)
              case ContextNotFound => outcome == NotFound
              case ContextAmbiguous => outcome == Ambiguous
              case Content(text) =>
                && outcome == (
                     if !Guarded(Sha256(current), expectedSha256, old(Snapshot(path))) then FileChanged
                     else if expectedSha256 == None && old(Snapshot(path)) == None && !allowUnguarded
                     then UnguardedDenied
                     else Landed)
                && (outcome == Landed ==>
                      disks == Stored(old(disks), target, path, text, pushed) && Snapshot(path) == Some(Sha256(text)))
                && log == old(log) + [Tried(path, current, expectedSha256, outcome, text)]
      ensures outcome != Landed ==> disks == old(disks) && snapshots == old(snapshots)
    {
      var planned := Plan(TextAt(disks, target, path), change);
      if planned.ContextNotFound? { return NotFound; }
      if planned.ContextAmbiguous? { return Ambiguous; }
      var current := CurrentText(disks, target, path);
      var prepared := PrepareFromCurrent(current, expectedSha256, Snapshot(path));
      if prepared == None {
        outcome := FileChanged;
      } else if prepared.value.expected == None && !allowUnguarded {
        outcome := UnguardedDenied;
      } else {
        outcome := Landed;
      }
      assert Snapshot(path) == DigestOf(LastSeen(log, path));
      Record(Tried(path, current, expectedSha256, outcome, planned.text));
      if outcome == Landed {
        disks := Stored(disks, target, path, planned.text, pushed);
        snapshots := snapshots[path := Sha256(planned.text)];
      }
    }

    /** Someone else changes or removes a file. */
    method Outside(local: bool, path: string, content: Option<string>)
      requires Valid()
      modifies this`disks
      ensures Valid() && log == old(log)
      ensures disks == if local then disks.(local := Put(old(disks).local, path, content), remote := old(disks).remote)
                       else disks.(local := old(disks).local, remote := Put(old(disks).remote, path, content))
    {
      if local {
        disks := disks.(local := Put(disks.local, path, content));
      } else {
        disks := disks.(remote := Put(disks.remote, path, content));
      }
    }
  }

  datatype Op =
    | ReadOp(target: Target, path: string)
    | ChangeOp(target: Target, path: string, change: Change, expected: Option<Digest>, pushed: bool)
    | OutsideOp(local: bool, path: string, content: Option<string>)

  /** Any run of reads, changes and outside changes from a new context: every change was justified. */
  method Run(disks: Disks, allowUnguarded: bool, ops: seq<Op>) returns (tools: FileTools)
    requires forall op :: op in ops && op.ChangeOp? ==> ValidChange(op.change)
    ensures tools.Valid() && tools.allowUnguarded == allowUnguarded
  {
    tools := new FileTools(disks, allowUnguarded);
    for k := 0 to |ops|
      invariant fresh(tools) && tools.Valid()
    {
      match ops[k]
      case ReadOp(target, path) => var _ := tools.Read(target, path);
      case ChangeOp(target, path, change, expected, pushed) =>
        var _ := tools.Apply(target, path, change, expected, pushed);
      case OutsideOp(local, path, content) => tools.Outside(local, path, content);
    }
  }

  /** Someone else changes files any number of times, then a change without a caller's hash is tried on a file
      the context has seen: unless its plan fails first, it lands if the file still shows the text seen last,
      and is refused otherwise.  `current` is what the file shows by then. */
  method ChangeAfterOutside(tools: FileTools, outside: seq<Op>, target: Target, path: string, change: Change,
                            pushed: bool)
    returns (outcome: Outcome, current: Option<string>)
    requires tools.Valid() && ValidChange(change) && LastSeen(tools.log, path).Some?
    requires forall op :: op in outside ==> op.OutsideOp?
    modifies tools
    ensures tools.Valid()
    ensures match Plan(current, change)
            case ContextNotFound => outcome == NotFound
            case ContextAmbiguous => outcome == Ambiguous
            case Content(_) =>
              outcome == if LastSeen(old(tools.log), path) == Some(Shown(current)) then Landed else FileChanged
    ensures outcome != Landed ==> TextAt(tools.disks, target, path) == current
  {
    for k := 0 to |outside|
      invariant tools.Valid() && tools.log == old(tools.log)
    {
      tools.Outside(outside[k].local, outside[k].path, outside[k].content);
    }
    current := TextAt(tools.disks, target, path);
    assert tools.Snapshot(path) == DigestOf(LastSeen(tools.log, path));
    outcome := tools.Apply(target, path, change, None, pushed);
  }

  /** A missing file counts as empty. */
  function Shown(text: Option<string>): string {
    if text.Some? then text.value else ""
  }

  lemma {:induction false} JustifiedAt(allowUnguarded: bool, log: seq<Event>, i: nat)
    requires AllJustified(allowUnguarded, log) && i < |log|
    ensures Justified(allowUnguarded, log[..i], log[i])
    decreases |log|
  {
    if i < |log| - 1 {
      JustifiedAt(allowUnguarded, log[..|log| - 1], i);
      assert log[..|log| - 1][..i] == log[..i];
    }
  }

  /** No lost update: in any run, a change that landed replaced a text that the caller named by its hash or
      that the context had read or written last; otherwise nothing was known of the file and unguarded writes
      are allowed. */
  lemma LandedReplacedWhatWasSeen(allowUnguarded: bool, log: seq<Event>, i: nat)
    requires AllJustified(allowUnguarded, log) && i < |log| && log[i].Tried? && log[i].outcome == Landed
    ensures
      || log[i].expected == Some(Sha256(log[i].replaced))
      || LastSeen(log[..i], log[i].path) == Some(log[i].replaced)
      || (allowUnguarded && log[i].expected == None && LastSeen(log[..i], log[i].path) == None)
  {
    JustifiedAt(allowUnguarded, log, i);
  }

  /** Without a caller's hash, a file the context has seen can be changed exactly while it still has that text:
      an outside change blocks. */
  lemma OutsideChangeBlocks(log: seq<Event>, path: string, current: string)
    requires LastSeen(log, path).Some?
    ensures Guarded(Sha256(current), None, DigestOf(LastSeen(log, path))) <==> LastSeen(log, path) == Some(current)
  {
  }

  /** A content that was just written can be changed again without a hash, except through the sync target when
      it has a carriage return: reading it back gives another text. */
  lemma WriteAgainIff(disks: Disks, target: Target, path: string, content: string, pushed: bool)
    ensures var after := Stored(disks, target, path, content, pushed);
            Guarded(Sha256(CurrentText(after, target, path)), None, Some(Sha256(content))) <==>
            target != Sync || '\r' !in content
  {
    ReadTextIsIdentityIff(content);
  }

  /** A snapshot read on one side guards the other side too: the change lands exactly when both texts agree,
      a missing file counting as empty. */
  lemma SnapshotOfTheOtherSide(disks: Disks, path: string)
    requires path in disks.local
    ensures Guarded(Sha256(CurrentText(disks, Remote, path)), None, DigestOf(TextAt(disks, Local, path))) <==>
            (if path in disks.remote then disks.remote[path] == disks.local[path] else disks.local[path] == "")
  {
  }

  /** A single replacement that lands puts the new text at the leftmost place, and no place of the old text
      lies wholly after it. */
  lemma EditReplacesThePlace(current: string, edit: Change)
    requires edit.Edit? && ValidChange(edit) && !edit.replaceAll
    ensures match Plan(Some(current), edit)
            case ContextNotFound => !Occurs(current, edit.oldText)
            case ContextAmbiguous => exists j ::
                OccursAt(current, edit.oldText, j) && j >= First(current, edit.oldText) + |edit.oldText|
            case Content(text) =>
              var i := First(current, edit.oldText);
              && OccursAt(current, edit.oldText, i) && AllBefore(current, edit.oldText, i + |edit.oldText|)
              && text == current[..i] + edit.newText + current[i + |edit.oldText|..]
  {
    var count := Count(current, edit.oldText);
    NotFoundIff(current, edit.oldText);
    if count > 0 {
      UnambiguousIfFound(current, edit.oldText, First(current, edit.oldText) + |edit.oldText|);
    }
    if count == 1 {
      FirstIsLeftmost(current, edit.oldText);
      ReplaceOnce(current, edit.oldText, edit.newText);
    }
  }

  /** Replacing all puts the new text at every place where the old one is found going from the left. */
  lemma EditReplacesAll(current: string, edit: Change) returns (pieces: seq<string>)
    requires edit.Edit? && ValidChange(edit) && edit.replaceAll
    ensures match Plan(Some(current), edit)
            case ContextNotFound => !Occurs(current, edit.oldText)
            case ContextAmbiguous => false
            case Content(text) =>
              && |pieces| > 1 && LeftmostCuts(pieces, edit.oldText)
              && current == Interleaved(pieces, edit.oldText) && text == Interleaved(pieces, edit.newText)
  {
    NotFoundIff(current, edit.oldText);
    pieces := ReplaceAllCuts(current, edit.oldText, edit.newText, Count(current, edit.oldText));
  }

  /** In a missing file nothing is found, and writing needs no file. */
  lemma PlanForMissing(change: Change)
    requires ValidChange(change)
    ensures Plan(None, change) == if change.Edit? then ContextNotFound else Content(change.content)
    ensures forall current :: change.Write? ==> Plan(current, change) == Content(change.content)
  {
  }

  /** A write changes the file of its path and no other, on its own side and, when a sync write is pushed, on the
      remote one, where what was read of it arrives; and its target shows what was written, newlines
      translated by the sync target. */
  lemma StoredChangesOneFile(disks: Disks, target: Target, path: string, content: string, pushed: bool)
    ensures var after := Stored(disks, target, path, content, pushed);
            && after.local == (if target == Remote then disks.local else disks.local[path := content])
            && after.remote == (match target
                                case Local => disks.remote
                                case Remote => disks.remote[path := content]
                                case Sync => if pushed then disks.remote[path := ReadText(content)] else disks.remote)
            && TextAt(after, target, path) == Some(if target == Sync then ReadText(content) else content)
            && forall t, p :: p != path ==> TextAt(after, t, p) == TextAt(disks, t, p)
  {
  }

  function Put(files: map<string, string>, path: string, content: Option<string>): map<string, string> {
    if content.Some? then files[path := content.value] else files - {path}
  }
}
