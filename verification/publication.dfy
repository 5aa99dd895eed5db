// All-or-nothing publication of a candidate's changes into the target files.
module Publication {
  import opened Wrappers

  type Content = seq<bv8>

  type Files = map<string, Content>

  // One change of a candidate: a file's bytes before and after, none where it is absent.
  datatype Change = Change(path: string, before: Option<Content>, after: Option<Content>)

  // How one `_replace` ends: returned; raised with the file as it was; or raised after the file was
  // already replaced, by the removal of its temporary file or an interrupt before the note of it.
  datatype Writing = Done | Unwritten | Unrecorded

  // What the outside does while one change is applied.
  datatype Turn = Turn(owned: bool, current: bool, writing: Writing)

  function Read(files: Files, path: string): Option<Content> {
    if path in files then Some(files[path]) else None
  }

  // `_replace`: write, or unlink when there is no content.
  function Write(files: Files, path: string, content: Option<Content>): Files {
    if content.Some? then files[path := content.value] else files - {path}
  }

  function Applied(files: Files, changes: seq<Change>): Files {
    if changes == [] then files
    else
      var last := changes[|changes| - 1];
      Write(Applied(files, changes[..|changes| - 1]), last.path, last.after)
  }

  // Each change finds its preimage in what the earlier ones left.
  predicate Preimages(files: Files, changes: seq<Change>) {
    forall i :: 0 <= i < |changes| ==> PreimageAt(files, changes, i)
  }

  predicate PreimageAt(files: Files, changes: seq<Change>, i: nat)
    requires i < |changes|
  {
    Read(Applied(files, changes[..i]), changes[i].path) == changes[i].before
  }

  predicate AllPass(turns: seq<Turn>) {
    forall i :: 0 <= i < |turns| ==> turns[i].owned && turns[i].current && turns[i].writing.Done?
  }

  // The loop ends at change `i` with the file replaced and no note of it.
  predicate RaisedUnrecorded(files: Files, changes: seq<Change>, turns: seq<Turn>, i: nat)
    requires |turns| == |changes|
  {
    && i < |changes| && AllPass(turns[..i]) && Preimages(files, changes[..i]) && PreimageAt(files, changes, i)
    && turns[i].owned && turns[i].current && turns[i].writing.Unrecorded?
  }

  // That replacement survives the undo: no earlier, undone change is to the same path.
  predicate LeftBehind(files: Files, changes: seq<Change>, turns: seq<Turn>, i: nat)
    requires |turns| == |changes|
  {
    RaisedUnrecorded(files, changes, turns, i) && !Touches(changes[..i], changes[i].path)
  }

  predicate DistinctPaths(changes: seq<Change>) {
    forall i, j :: 0 <= i < j < |changes| ==> changes[i].path != changes[j].path
  }

  predicate Touches(changes: seq<Change>, path: string) {
    exists i :: 0 <= i < |changes| && changes[i].path == path
  }

  predicate LastOfItsPath(changes: seq<Change>, i: nat) {
    i < |changes| && forall j :: i < j < |changes| ==> changes[j].path != changes[i].path
  }

  // ---- What a completed application leaves ----

  lemma {:induction false} UntouchedStays(files: Files, changes: seq<Change>, path: string)
    requires forall i :: 0 <= i < |changes| ==> changes[i].path != path
    ensures Read(Applied(files, changes), path) == Read(files, path)
  {
    if changes != [] { UntouchedStays(files, changes[..|changes| - 1], path); }
  }

  // A path holds the last change made to it.
  lemma {:induction false} LastChangeWins(files: Files, changes: seq<Change>, i: nat)
    requires LastOfItsPath(changes, i)
    ensures Read(Applied(files, changes), changes[i].path) == changes[i].after
    decreases |changes|
  {
    var front := changes[..|changes| - 1];
    if i < |changes| - 1 {
      assert front[i] == changes[i];
      LastChangeWins(files, front, i);
    }
  }

  lemma PreimageIsOriginal(files: Files, changes: seq<Change>, i: nat)
    requires DistinctPaths(changes) && i < |changes|
    ensures PreimageAt(files, changes, i) <==> Read(files, changes[i].path) == changes[i].before
  {
    assert forall k :: 0 <= k < i ==> changes[..i][k] == changes[k];
    UntouchedStays(files, changes[..i], changes[i].path);
  }

  // With pairwise distinct paths every changed path ends at its `after`, every other file is
  // untouched, and all preimages hold exactly when they hold in the files as they were.
  lemma DistinctChangesAllHold(files: Files, changes: seq<Change>)
    requires DistinctPaths(changes)
    ensures forall i :: 0 <= i < |changes| ==> Read(Applied(files, changes), changes[i].path) == changes[i].after
    ensures forall path :: !Touches(changes, path) ==> Read(Applied(files, changes), path) == Read(files, path)
    ensures Preimages(files, changes) <==>
            forall i :: 0 <= i < |changes| ==> Read(files, changes[i].path) == changes[i].before
  {
    forall i | 0 <= i < |changes|
      ensures Read(Applied(files, changes), changes[i].path) == changes[i].after
      ensures PreimageAt(files, changes, i) <==> Read(files, changes[i].path) == changes[i].before
    {
      assert LastOfItsPath(changes, i);
      LastChangeWins(files, changes, i);
      PreimageIsOriginal(files, changes, i);
    }
    forall path | !Touches(changes, path)
      ensures Read(Applied(files, changes), path) == Read(files, path)
    {
      UntouchedStays(files, changes, path);
    }
    PreimagesOfOriginals(files, changes);
  }

  lemma PreimagesOfOriginals(files: Files, changes: seq<Change>)
    requires DistinctPaths(changes)
    ensures Preimages(files, changes) <==>
            forall i :: 0 <= i < |changes| ==> Read(files, changes[i].path) == changes[i].before
  {
    if Preimages(files, changes) {
      forall i | 0 <= i < |changes|
        ensures Read(files, changes[i].path) == changes[i].before
      {
        assert PreimageAt(files, changes, i);
        PreimageIsOriginal(files, changes, i);
      }
    } else {
      var i :| 0 <= i < |changes| && !PreimageAt(files, changes, i);
      PreimageIsOriginal(files, changes, i);
    }
  }

  function With(files: Files, stray: Option<Change>): Files {
    if stray.Some? then Write(files, stray.value.path, stray.value.after) else files
  }

  // What the undo of `changes` leaves when one more replacement was made and not noted.
  function Undone(files: Files, changes: seq<Change>, stray: Option<Change>): Files {
    if stray.Some? && Touches(changes, stray.value.path) then files else With(files, stray)
  }

  // Undoing one change gives back what it found; a stray replacement stays unless it is to that path.
  lemma UndoOne(files: Files, change: Change, stray: Option<Change>)
    requires Read(files, change.path) == change.before
    ensures Write(With(Write(files, change.path, change.after), stray), change.path, change.before)
            == Undone(files, [change], stray)
    ensures Write(Write(files, change.path, change.after), change.path, change.before) == files
  {
    assert [change][0] == change;
  }

  // The first `i` changes are still to undo, those up to `count` are undone.
  predicate Undoing(files: Files, start: Files, changes: seq<Change>, i: nat, count: nat, stray: Option<Change>)
    requires i <= count <= |changes|
  {
    files == Undone(Applied(start, changes[..i]), changes[i..count], stray)
  }

  lemma UndoStep(files: Files, start: Files, changes: seq<Change>, i: nat, count: nat, stray: Option<Change>)
    requires i < count <= |changes| && Undoing(files, start, changes, i + 1, count, stray)
    requires Preimages(start, changes[..count])
    ensures Undoing(Write(files, changes[i].path, changes[i].before), start, changes, i, count, stray)
  {
    var here, change := Applied(start, changes[..i]), changes[i];
    assert changes[..i + 1][..i] == changes[..i];
    assert PreimageAt(start, changes[..count], i) && changes[..count][..i] == changes[..i];
    UndoOne(here, change, stray);
    if stray.Some? {
      TouchesFirst(changes[i..count], stray.value.path);
      assert changes[i..count][1..] == changes[i + 1..count];
      assert [change][0] == change;
    }
  }

  lemma TouchesFirst(changes: seq<Change>, path: string)
    requires changes != []
    ensures Touches(changes, path) <==> changes[0].path == path || Touches(changes[1..], path)
  {
    if Touches(changes, path) && changes[0].path != path {
      var i :| 0 <= i < |changes| && changes[i].path == path;
      assert changes[1..][i - 1].path == path;
    }
    if Touches(changes[1..], path) {
      var i :| 0 <= i < |changes| - 1 && changes[1..][i].path == path;
      assert changes[i + 1].path == path;
    }
  }

  // A validated candidate has distinct paths and no change that changes nothing.
  predicate Validated(changes: seq<Change>) {
    DistinctPaths(changes) && forall i :: 0 <= i < |changes| ==> changes[i].before != changes[i].after
  }

  // For a validated candidate every replacement without a note is left behind, and never equals
  // what the application found.
  lemma LeftBehindDiffers(files: Files, changes: seq<Change>, turns: seq<Turn>, i: nat)
    requires |turns| == |changes| && Validated(changes)
    ensures LeftBehind(files, changes, turns, i) <==> RaisedUnrecorded(files, changes, turns, i)
    ensures LeftBehind(files, changes, turns, i) ==> Write(files, changes[i].path, changes[i].after) != files
  {
    if i < |changes| {
      assert forall j :: 0 <= j < i ==> changes[..i][j] == changes[j];
      PreimageIsOriginal(files, changes, i);
      assert Read(Write(files, changes[i].path, changes[i].after), changes[i].path) == changes[i].after;
    }
  }

  // Whatever a candidate's only change is, one such end leaves it in place.
  lemma UnrecordedWriteStays(files: Files, change: Change)
    requires Read(files, change.path) == change.before && change.before != change.after
    ensures Validated([change]) && LeftBehind(files, [change], [Turn(true, true, Unrecorded)], 0)
    ensures Write(files, change.path, change.after) != files
  {
    assert Applied(files, []) == files && [change][..0] == [];
    assert Read(Write(files, change.path, change.after), change.path) == change.after;
  }

  class Target {
    var files: Files

    constructor (files: Files)
      ensures this.files == files
    {
      this.files := files;
    }

    // Undo of the first `count` changes, last one first.
    method RollBack(changes: seq<Change>, count: nat, ghost start: Files, ghost stray: Option<Change>)
      requires count <= |changes| && Preimages(start, changes[..count])
      requires files == With(Applied(start, changes[..count]), stray)
      modifies this
      ensures files == Undone(start, changes[..count], stray)
    {
      var i := count;
      assert changes[count..count] == [];
      while i > 0
        invariant 0 <= i <= count && Undoing(files, start, changes, i, count, stray)
      {
        i := i - 1;
        UndoStep(files, start, changes, i, count, stray);
        files := Write(files, changes[i].path, changes[i].before);
      }
      assert changes[0..count] == changes[..count] && changes[..0] == [];
    }

    // True when the changes are all in place, false when a check failed: `admitted` before the
    // loop, ownership, report expiry, preimage or write at any change, `kept` after the loop. Then
    // the files are as they were, but for one replacement made and not noted.
    method Apply(changes: seq<Change>, admitted: bool, turns: seq<Turn>, kept: bool) returns (ok: bool)
      requires |turns| == |changes|
      modifies this
      ensures ok <==> admitted && kept && AllPass(turns) && Preimages(old(files), changes)
      ensures ok ==> files == Applied(old(files), changes)
      ensures !ok && (!admitted || forall i: nat :: !LeftBehind(old(files), changes, turns, i)) ==>
                files == old(files)
      ensures forall i: nat :: admitted && LeftBehind(old(files), changes, turns, i) ==>
                !ok && files == Write(old(files), changes[i].path, changes[i].after)
    {
      if !admitted { return false; }
      ghost var start := files;
      for i := 0 to |changes|
        invariant files == Applied(start, changes[..i])
        invariant AllPass(turns[..i]) && Preimages(start, changes[..i])
      {
        var change, turn := changes[i], turns[i];
        assert changes[..i + 1][..i] == changes[..i];
        assert PreimageAt(start, changes, i) <==> Read(files, change.path) == change.before;
        if !turn.owned || !turn.current || Read(files, change.path) != change.before || !turn.writing.Done? {
          ghost var stray := None;
          if turn.owned && turn.current && Read(files, change.path) == change.before && turn.writing.Unrecorded? {
            files := Write(files, change.path, change.after);
            stray := Some(change);
          }
          RollBack(changes, i, start, stray);
          StopsAt(start, changes, turns, i, stray.Some?);
          return false;
        }
        files := Write(files, change.path, change.after);
        PreimagesGrow(start, changes, i);
      }
      assert changes[..|changes|] == changes && turns[..|turns|] == turns;
      if !kept {
        RollBack(changes, |changes|, start, None);
        return false;
      }
      return true;
    }
  }

  // The change the loop stops at is the only one that can be left behind.
  lemma StopsAt(files: Files, changes: seq<Change>, turns: seq<Turn>, i: nat, stray: bool)
    requires |turns| == |changes| && i < |changes| && AllPass(turns[..i]) && Preimages(files, changes[..i])
    requires turns[i].owned && turns[i].current && turns[i].writing.Done? ==> !PreimageAt(files, changes, i)
    requires stray <==> RaisedUnrecorded(files, changes, turns, i)
    ensures LeftBehind(files, changes, turns, i) <==> stray && !Touches(changes[..i], changes[i].path)
    ensures forall j: nat :: LeftBehind(files, changes, turns, j) ==> j == i
  {
    forall j: nat | j != i
      ensures !LeftBehind(files, changes, turns, j)
    {
      if j < i {
        assert turns[..i][j] == turns[j];
      } else if j < |changes| {
        assert turns[..j][i] == turns[i] && changes[..j][i] == changes[i] && changes[..j][..i] == changes[..i];
        assert Preimages(files, changes[..j]) ==> PreimageAt(files, changes[..j], i);
      }
    }
  }

  lemma PreimagesGrow(files: Files, changes: seq<Change>, i: nat)
    requires i < |changes| && Preimages(files, changes[..i]) && PreimageAt(files, changes, i)
    ensures Preimages(files, changes[..i + 1])
  {
    var shorter, longer := changes[..i], changes[..i + 1];
    forall k: nat | k < |longer|
      ensures PreimageAt(files, longer, k)
    {
      assert longer[..k] == changes[..k];
      if k < i {
        assert PreimageAt(files, shorter, k) && shorter[..k] == changes[..k];
      }
    }
  }
}
