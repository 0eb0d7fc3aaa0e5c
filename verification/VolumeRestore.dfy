/** Replacing the contents of a mounted volume by a staged archive, with undo. */
module VolumeRestore {
  import opened Options

  datatype Entry = File(content: string) | Directory(entries: Listing)
  type Listing = map<string, Entry>

  const ROLLBACK := "rollback.previous"

  // rename(2) as os.replace uses it: a file replaces a file, a directory an empty directory.
  predicate CanReplace(source: Entry, target: Option<Entry>) {
    match target
    case None => true
    case Some(File(_)) => source.File?
    case Some(Directory(entries)) => source.Directory? && entries == map[]
  }

  // `whole` is divided between a and b.
  ghost predicate Split(whole: Listing, a: Listing, b: Listing) {
    && a.Keys !! b.Keys && a.Keys + b.Keys == whole.Keys
    && (forall n :: n in a ==> a[n] == whole[n]) && (forall n :: n in b ==> b[n] == whole[n])
  }

  // `order` lists the names of b, each once.
  ghost predicate Lists(order: seq<string>, b: Listing) {
    && (forall i, j :: 0 <= i < j < |order| ==> order[i] != order[j])
    && (forall n :: n in order <==> n in b)
  }

  lemma SplitMove(whole: Listing, a: Listing, b: Listing, n: string)
    requires Split(whole, a, b) && n in a
    ensures n !in b && Split(whole, a - {n}, b[n := a[n]])
  {
  }

  lemma SplitSwap(whole: Listing, a: Listing, b: Listing)
    requires Split(whole, a, b)
    ensures Split(whole, b, a)
  {
  }

  lemma SplitAll(whole: Listing, a: Listing)
    requires Split(whole, a, map[])
    ensures a == whole
  {
  }

  lemma ListsMore(order: seq<string>, b: Listing, n: string, e: Entry)
    requires Lists(order, b) && n !in b
    ensures Lists(order + [n], b[n := e])
  {
  }

  lemma ListsLess(order: seq<string>, b: Listing)
    requires Lists(order, b) && order != []
    ensures order[|order| - 1] in b && Lists(order[..|order| - 1], b - {order[|order| - 1]})
  {
    var front, n := order[..|order| - 1], order[|order| - 1];
    assert order == front + [n];
    forall m ensures m in front <==> m in b - {n} {
      assert m in order <==> m in b;
    }
  }

  lemma ListsNone(b: Listing)
    requires Lists([], b)
    ensures b == map[]
  {
    assert b.Keys == {};
  }

  lemma Smaller(a: Listing, n: string)
    requires n in a
    ensures |a - {n}| == |a| - 1
  {
    assert (a - {n}).Keys == a.Keys - {n};
    assert |a.Keys - {n}| == |a.Keys| - 1;
  }

  lemma Larger(a: Listing, n: string, e: Entry)
    requires n !in a
    ensures |a[n := e]| == |a| + 1
  {
    assert a[n := e].Keys == a.Keys + {n};
  }

  // Entries of `whole` are being moved one by one: `order` lists those already in `to`.
  ghost predicate Transfer(whole: Listing, from: Listing, to: Listing, order: seq<string>) {
    Split(whole, from, to) && Lists(order, to) && |from| + |order| == |whole|
  }

  lemma TransferStarts(whole: Listing)
    ensures Transfer(whole, whole, map[], [])
  {
  }

  lemma TransferOne(whole: Listing, from: Listing, to: Listing, order: seq<string>, n: string)
    requires Transfer(whole, from, to, order) && n in from
    ensures n !in to && n !in order && Transfer(whole, from - {n}, to[n := from[n]], order + [n])
  {
    hide Split;
    assert n !in order by {
      SplitMove(whole, from, to, n);
    }
    hide Lists;
    SplitMove(whole, from, to, n);
    ListsMore(order, to, n, from[n]);
    Smaller(from, n);
  }

  lemma TransferBackOne(whole: Listing, from: Listing, to: Listing, order: seq<string>)
    requires Transfer(whole, from, to, order) && order != []
    ensures
      var n := order[|order| - 1];
      n in to && n !in from && Transfer(whole, from[n := to[n]], to - {n}, order[..|order| - 1])
  {
    hide Split, Lists;
    var n := order[|order| - 1];
    ListsLess(order, to);
    SplitSwap(whole, from, to);
    SplitMove(whole, to, from, n);
    SplitSwap(whole, to - {n}, from[n := to[n]]);
    Larger(from, n, to[n]);
  }

  lemma AllTransferred(whole: Listing, to: Listing, order: seq<string>)
    requires Transfer(whole, map[], to, order)
    ensures to == whole && |order| == |whole|
  {
    SplitSwap(whole, map[], to);
    SplitAll(whole, to);
  }

  lemma NoneTransferred(whole: Listing, from: Listing, to: Listing)
    requires Transfer(whole, from, to, [])
    ensures to == map[] && from == whole
  {
    ListsNone(to);
    SplitAll(whole, from);
  }

  // The staged children that have reached the volume root. One called rollback.previous
  // stands in the place of the rollback directory, which was empty.
  ghost predicate Shown(children: Listing, live: Listing, rollback: Option<Entry>, before: Option<Entry>) {
    && live == children - {ROLLBACK}
    && if ROLLBACK in children then before == Some(Directory(map[])) && rollback == Some(children[ROLLBACK]) &&
        children[ROLLBACK].Directory?
       else rollback == before
  }

  lemma ShowNothing(before: Option<Entry>)
    ensures Shown(map[], map[], before, before)
  {
    var nothing: Listing := map[];
    assert nothing - {ROLLBACK} == nothing;
  }

  lemma ShowChild(children: Listing, live: Listing, rollback: Option<Entry>, before: Option<Entry>, n: string, e: Entry)
    requires Shown(children, live, rollback, before) && n !in children && n != ROLLBACK
    ensures n !in live && Shown(children[n := e], live[n := e], rollback, before)
  {
    assert children[n := e] - {ROLLBACK} == live[n := e];
  }

  lemma ShowOverRollback(children: Listing, live: Listing, rollback: Option<Entry>, before: Option<Entry>, e: Entry)
    requires Shown(children, live, rollback, before) && ROLLBACK !in children
    requires before.Some? && before.value.Directory? && CanReplace(e, rollback)
    ensures rollback == before && Shown(children[ROLLBACK := e], live, Some(e), before)
  {
    assert children[ROLLBACK := e] - {ROLLBACK} == live;
  }

  lemma HideChild(children: Listing, live: Listing, rollback: Option<Entry>, before: Option<Entry>, n: string)
    requires Shown(children, live, rollback, before) && n in children && n != ROLLBACK
    ensures n in live && live[n] == children[n] && Shown(children - {n}, live - {n}, rollback, before)
  {
    assert (children - {n}) - {ROLLBACK} == live - {n};
  }

  lemma HideRollback(children: Listing, live: Listing, rollback: Option<Entry>, before: Option<Entry>)
    requires Shown(children, live, rollback, before) && ROLLBACK in children
    ensures rollback == Some(children[ROLLBACK]) && before == Some(Directory(map[]))
    ensures Shown(children - {ROLLBACK}, live, before, before)
  {
    assert (children - {ROLLBACK}) - {ROLLBACK} == live;
  }

  // A staged child cannot take its place: it is called like the staging directory, or like
  // the rollback directory and that holds entries (or the child is a file).
  ghost predicate Obstructed(stageName: string, children: Listing, before: Option<Entry>) {
    stageName in children || (ROLLBACK in children && !CanReplace(children[ROLLBACK], before))
  }

  // Forward operations number from to to - 1 do not raise.
  ghost predicate Smooth(fails: nat -> bool, from: nat, to: nat) {
    forall k :: from <= k < to ==> !fails(k)
  }

  lemma SmoothAll(fails: nat -> bool, moves: nat, installs: nat)
    ensures Smooth(fails, 0, 1 + moves + installs)
        <==> !fails(0) && Smooth(fails, 1, 1 + moves) && Smooth(fails, 1 + moves, 1 + moves + installs)
  {
  }

  // A child takes its place unless it is called like the staging directory, or like the rollback
  // directory and is a file or finds old entries there.
  lemma NothingObstructs(stageName: string, children: Listing, entries: Listing)
    ensures
      !Obstructed(stageName, children, Some(Directory(entries)))
      <==> stageName !in children && (ROLLBACK in children ==> entries == map[] && children[ROLLBACK].Directory?)
  {
  }

  lemma SomeLeft(whole: Listing, from: Listing, to: Listing, order: seq<string>, n: string)
    requires Transfer(whole, from, to, order) && n in from
    ensures |order| < |whole|
  {
    assert |from.Keys| > 0;
  }

  datatype Outcome = Done | Raised

  // The volume root while a restore runs: its ordinary entries, the entry called
  // rollback.previous, and the children of the staged archive root.
  class Volume {
    const stageName: string
    var live: Listing
    var rollback: Option<Entry>
    var staged: Listing

    constructor (stageName: string, live: Listing, rollback: Option<Entry>, staged: Listing)
      ensures this.stageName == stageName && this.live == live && this.rollback == rollback && this.staged == staged
    {
      this.stageName, this.live, this.rollback, this.staged := stageName, live, rollback, staged;
    }

    // Moves every entry into the new rollback directory, in any order; forward operation k
    // raises when fails(k).
    method MoveOut(fails: nat -> bool, start: nat) returns (moved: seq<string>, ok: bool)
      requires rollback == Some(Directory(map[]))
      modifies this`live, this`rollback
      ensures rollback.Some? && rollback.value.Directory?
      ensures Transfer(old(live), live, rollback.value.entries, moved)
      ensures ok ==> live == map[] && Smooth(fails, start, start + |moved|)
      ensures !ok ==> !Smooth(fails, start, start + |old(live)|)
    {
      hide Transfer;
      moved := [];
      ok := true;
      var aside: Listing := map[];
      TransferStarts(live);
      while live != map[]
        invariant rollback == Some(Directory(aside))
        invariant Transfer(old(live), live, aside, moved)
        invariant Smooth(fails, start, start + |moved|)
        decreases |live|
      {
        assert live.Keys != {};
        var n :| n in live;
        SomeLeft(old(live), live, aside, moved, n);
        if fails(start + |moved|) {
          ok := false;
          return;
        }
        TransferOne(old(live), live, aside, moved, n);
        Smaller(live, n);
        aside := aside[n := live[n]];
        rollback := Some(Directory(aside));
        live := live - {n};
        moved := moved + [n];
      }
    }

    // What os.replace finds at the name of a staged child.
    function TargetOf(n: string): Option<Entry>
      reads this
    {
      if n == stageName then Some(Directory(map["root" := Directory(staged)]))
      else if n == ROLLBACK then rollback
      else if n in live then Some(live[n]) else None
    }

    lemma FreeTarget(children: Listing, before: Option<Entry>, n: string)
      requires Shown(children, live, rollback, before) && n !in children
      ensures n == stageName ==> forall e :: !CanReplace(e, TargetOf(n))
      ensures n != stageName && n != ROLLBACK ==> TargetOf(n) == None
      ensures n != stageName && n == ROLLBACK ==> TargetOf(n) == rollback == before
    {
      assert "root" in map["root" := Directory(staged)];
    }

    // Moves the staged children to the volume root.
    method Install(fails: nat -> bool, start: nat) returns (installed: seq<string>, ghost children: Listing, ok: bool)
      requires live == map[] && rollback.Some? && rollback.value.Directory? && stageName != ROLLBACK
      modifies this`live, this`rollback, this`staged
      ensures Transfer(old(staged), staged, children, installed) && Shown(children, live, rollback, old(rollback))
      ensures ok ==> staged == map[] && !Obstructed(stageName, old(staged), old(rollback))
      ensures ok ==> Smooth(fails, start, start + |installed|)
      ensures !ok ==> !Smooth(fails, start, start + |old(staged)|) || Obstructed(stageName, old(staged), old(rollback))
    {
      hide Transfer, Shown, CanReplace, TargetOf, Obstructed;
      installed, children, ok := [], map[], true;
      TransferStarts(staged);
      ShowNothing(rollback);
      NothingYet(stageName, staged, rollback);
      while staged != map[]
        invariant Transfer(old(staged), staged, children, installed)
        invariant Shown(children, live, rollback, old(rollback))
        invariant Placed(stageName, old(staged), staged, old(rollback))
        invariant Smooth(fails, start, start + |installed|)
        decreases |staged|
      {
        hide Placed;
        assert staged.Keys != {};
        var n :| n in staged;
        SomeLeft(old(staged), staged, children, installed, n);
        if fails(start + |installed|) {
          ok := false;
          return;
        }
        TransferOne(old(staged), staged, children, installed, n);
        FreeTarget(children, old(rollback), n);
        Same(old(staged), staged, children, installed, n);
        if !CanReplace(staged[n], TargetOf(n)) {
          ok := false;
          InTheWay(stageName, old(staged), old(rollback), n, TargetOf(n));
          return;
        }
        PlaceOne(stageName, old(staged), staged, old(rollback), n);
        Smaller(staged, n);
        if n == ROLLBACK {
          ShowOverRollback(children, live, rollback, old(rollback), staged[n]);
          rollback := Some(staged[n]);
        } else {
          ShowChild(children, live, rollback, old(rollback), n, staged[n]);
          live := live[n := staged[n]];
        }
        children := children[n := staged[n]];
        staged := staged - {n};
        installed := installed + [n];
      }
      AllPlaced(stageName, old(staged), old(rollback));
    }

    // The undo of Install; undo moves do not fail.
    method Uninstall(installed: seq<string>, ghost whole: Listing, ghost children: Listing, ghost before: Option<Entry>)
      requires Transfer(whole, staged, children, installed) && Shown(children, live, rollback, before) && before.Some?
      modifies this`live, this`rollback, this`staged
      ensures live == map[] && staged == whole
      ensures rollback == if ROLLBACK in children then None else before
      ensures ROLLBACK in children ==> before == Some(Directory(map[]))
    {
      hide Transfer, Shown;
      var left := installed;
      // The rollback entry as it would be had the undo not taken it away.
      ghost var there, shown := children, rollback;
      while left != []
        invariant Transfer(whole, staged, there, left) && Shown(there, live, shown, before)
        invariant there.Keys <= children.Keys
        invariant rollback == if ROLLBACK in children && ROLLBACK !in there then None else shown
        invariant ROLLBACK in children && ROLLBACK !in there ==> before == Some(Directory(map[]))
      {
        var n := left[|left| - 1];
        TransferBackOne(whole, staged, there, left);
        if n == ROLLBACK {
          HideRollback(there, live, shown, before);
          staged := staged[n := rollback.value];
          rollback, shown := None, before;
        } else {
          HideChild(there, live, shown, before, n);
          staged := staged[n := live[n]];
          live := live - {n};
        }
        there := there - {n};
        left := left[..|left| - 1];
      }
      NoneTransferred(whole, staged, there);
      NoneShown(live, shown, before);
    }

    // The undo of MoveOut.
    method MoveBack(moved: seq<string>, ghost whole: Listing)
      requires rollback.Some? && rollback.value.Directory?
      requires Transfer(whole, live, rollback.value.entries, moved)
      modifies this`live, this`rollback
      ensures live == whole && rollback == Some(Directory(map[]))
    {
      hide Transfer;
      var left, aside := moved, rollback.value.entries;
      while left != []
        invariant rollback == Some(Directory(aside))
        invariant Transfer(whole, live, aside, left)
      {
        var n := left[|left| - 1];
        TransferBackOne(whole, live, aside, left);
        live := live[n := aside[n]];
        aside := aside - {n};
        rollback := Some(Directory(aside));
        left := left[..|left| - 1];
      }
      NoneTransferred(whole, live, aside);
    }

    // replace_volume_contents, from the staged archive root on.
    method ReplaceContents(fails: nat -> bool) returns (outcome: Outcome)
      requires ROLLBACK !in live && stageName !in live && stageName != ROLLBACK
      modifies this
      ensures staged == map[]
      // A raised restore leaves the entries as they were; of the rollback entry, only an
      // empty directory left over from before is tidied away.
      ensures outcome == Raised ==> live == old(live)
      ensures outcome == Raised ==> rollback == if old(rollback) == Some(Directory(map[])) then None else old(rollback)
      // A completed one shows the archive's children and keeps the old entries aside,
      // unless the archive itself has a child called rollback.previous.
      ensures outcome == Done ==> live == old(staged) - {ROLLBACK} && old(rollback) == None
      ensures outcome == Done ==>
          rollback == Some(if ROLLBACK in old(staged) then old(staged)[ROLLBACK] else Directory(old(live)))
      // So the old entries are still there unless the archive has a child of that name that is
      // not an empty directory.
      ensures outcome == Done ==>
          (rollback == Some(Directory(old(live))) <==>
           ROLLBACK !in old(staged) || old(staged)[ROLLBACK] == Directory(map[]))
      // It completes exactly when no forward operation fails and nothing is in the way.
      ensures
        outcome == Done <==>
        && old(rollback) == None && Smooth(fails, 0, 1 + |old(live)| + |old(staged)|)
        && !Obstructed(stageName, old(staged), Some(Directory(old(live))))
    {
      hide Transfer, Shown, Obstructed, Smooth;
      ghost var entries, root := live, staged;
      SmoothAll(fails, |live|, |staged|);
      if rollback.Some? {
        if rollback == Some(Directory(map[])) {
          rollback := None;
        }
        staged := map[];
        return Raised;
      }
      if fails(0) {
        staged := map[];
        return Raised;
      }
      rollback := Some(Directory(map[]));
      var moved, movedAll := MoveOut(fails, 1);
      if !movedAll {
        MoveBack(moved, entries);
        rollback := None;
        staged := map[];
        return Raised;
      }
      AllTransferred(entries, rollback.value.entries, moved);
      ghost var before := rollback;
      var installed, children, installedAll := Install(fails, 1 + |moved|);
      if !installedAll {
        Uninstall(installed, root, children, before);
        if rollback.Some? {
          MoveBack(moved, entries);
        } else {
          assert live == entries;
        }
        rollback := None;
        staged := map[];
        return Raised;
      }
      AllTransferred(root, children, installed);
      AllShown(children, live, rollback, before);
      OldEntriesAreKeptAside(stageName, root, entries);
      outcome := Done;
    }
  }

  // Every child that has left the staged root had its place free.
  ghost predicate Placed(stageName: string, whole: Listing, staged: Listing, before: Option<Entry>) {
    forall n :: n in whole && n !in staged ==> n != stageName && (n == ROLLBACK ==> CanReplace(whole[n], before))
  }

  lemma NothingYet(stageName: string, whole: Listing, before: Option<Entry>)
    ensures Placed(stageName, whole, whole, before)
  {
  }

  lemma PlaceOne(stageName: string, whole: Listing, staged: Listing, before: Option<Entry>, n: string)
    requires Placed(stageName, whole, staged, before) && n in staged && n in whole
    requires n != stageName && (n == ROLLBACK ==> CanReplace(whole[n], before))
    ensures Placed(stageName, whole, staged - {n}, before)
  {
    hide CanReplace;
  }

  lemma AllPlaced(stageName: string, whole: Listing, before: Option<Entry>)
    requires Placed(stageName, whole, map[], before)
    ensures !Obstructed(stageName, whole, before)
  {
    hide CanReplace;
  }

  lemma InTheWay(stageName: string, whole: Listing, before: Option<Entry>, n: string, target: Option<Entry>)
    requires n in whole && !CanReplace(whole[n], target)
    requires n == stageName || (n == ROLLBACK && target == before) || target == None
    ensures Obstructed(stageName, whole, before)
  {
  }

  lemma Same(whole: Listing, from: Listing, to: Listing, order: seq<string>, n: string)
    requires Transfer(whole, from, to, order) && n in from
    ensures n in whole && whole[n] == from[n]
  {
  }

  lemma AllShown(children: Listing, live: Listing, rollback: Option<Entry>, before: Option<Entry>)
    requires Shown(children, live, rollback, before)
    ensures live == children - {ROLLBACK} &&
        rollback == if ROLLBACK in children then Some(children[ROLLBACK]) else before
  {
  }

  lemma NoneShown(live: Listing, rollback: Option<Entry>, before: Option<Entry>)
    requires Shown(map[], live, rollback, before)
    ensures live == map[] && rollback == before
  {
    assert live.Keys == {};
  }

  // Nothing obstructs a child called rollback.previous only if it replaces an empty directory.
  lemma OldEntriesAreKeptAside(stageName: string, children: Listing, entries: Listing)
    requires !Obstructed(stageName, children, Some(Directory(entries)))
    ensures ROLLBACK in children ==>
              (children[ROLLBACK] == Directory(entries) <==> children[ROLLBACK] == Directory(map[]))
  {
  }
}
