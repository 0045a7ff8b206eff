/** The undo log of Apply as values, and what running it backwards restores. */
module Rollback {
  import opened Paths
  import opened FileTree

  // ----- growing a tree -----

  /** The tree with `d` and its missing ancestors added as directories. */
  function AddDirs(t: Tree, d: Path): Tree {
    if d in t || d == [] then t else AddDirs(t, Parent(d))[d := Dir]
  }

  /** The directories AddDirs adds, shallowest first. */
  function NewDirs(t: Tree, d: Path): seq<Path> {
    if d in t || d == [] then [] else NewDirs(t, Parent(d)) + [d]
  }

  /** `q` is `d` or one of its ancestors. */
  predicate Above(q: Path, d: Path) {
    q <= d
  }

  lemma AboveParent(q: Path, d: Path)
    requires d != []
    ensures Above(q, d) <==> q == d || Above(q, Parent(d))
  {
    if q <= d && |q| < |d| {
      assert q == d[..|q|] == Parent(d)[..|q|];
    }
  }

  /** Whatever exists on the way to `d` is a directory. */
  ghost predicate Passable(t: Tree, d: Path) {
    ProperNames(d) && forall n :: 0 <= n <= |d| && d[..n] in t ==> t[d[..n]].Dir?
  }

  lemma {:induction false} AddDirsAt(t: Tree, d: Path)
    requires WellFormed(t)
    ensures forall q :: q in AddDirs(t, d) <==> q in t || Above(q, d)
    ensures forall q :: q in AddDirs(t, d) ==> AddDirs(t, d)[q] == if q in t then t[q] else Dir
  {
    if d in t || d == [] {
      forall q | Above(q, d) ensures q in t {
        assert q == d[..|q|];
        if d in t { AncestorsAreDirs(t, d, |q|); }
      }
    } else {
      AddDirsAt(t, Parent(d));
      forall q { AboveParent(q, d); }
    }
  }

  lemma AddDirsWellFormed(t: Tree, d: Path)
    requires WellFormed(t) && Passable(t, d)
    ensures WellFormed(AddDirs(t, d))
  {
    AddDirsAt(t, d);
    var t' := AddDirs(t, d);
    forall p | p in t' ensures Placed(t', p) {
      if p in t {
        assert Placed(t, p);
      } else if p != [] {
        assert p <= d && Above(p, d);
        assert Parent(p) == d[..|p| - 1] && Above(Parent(p), d);
        assert p[|p| - 1] == d[|p| - 1] && d[|p| - 1] in d;
      }
    }
  }

  // ----- the undo log -----

  /** The closures Apply pushes, as data. `privileged` is whether the process may open any file for writing. */
  datatype Undo =
    | UndoDirs(created: seq<Path>)
    | UndoWrite(abs: Path, prior: string, existed: bool, mode: nat, privileged: bool)
    | UndoDelete(abs: Path, prior: string, mode: nat, privileged: bool)

  /** The owner's write permission, octal 200. */
  const OWNER_WRITE: nat := 0x80

  /** An existing file with this mode can be opened for writing. */
  predicate Reopens(privileged: bool, mode: nat) {
    privileged || mode / OWNER_WRITE % 2 == 1
  }

  predicate HasChild(t: Tree, p: Path) {
    exists q :: q in t && q != [] && Parent(q) == p
  }

  /** `os.Remove`: a directory goes only while it is empty. */
  function Removed(t: Tree, p: Path): Tree {
    if p == [] || (IsDir(t, p) && HasChild(t, p)) then t else t - {p}
  }

  function DirsRemoved(t: Tree, created: seq<Path>): Tree {
    if created == [] then t
    else DirsRemoved(Removed(t, created[|created| - 1]), created[..|created| - 1])
  }

  /** `os.WriteFile`: an existing file keeps its mode, if it can be opened at all; a new one gets `mode`. */
  function WrittenBack(t: Tree, abs: Path, data: string, mode: nat, privileged: bool): Tree {
    if abs in t then
      if t[abs].File? && Reopens(privileged, t[abs].mode) then t[abs := File(data, t[abs].mode)] else t
    else if abs != [] && IsDir(t, Parent(abs)) then t[abs := File(data, mode)]
    else t
  }

  function Undone(t: Tree, u: Undo): Tree {
    match u
    case UndoDirs(created) => DirsRemoved(t, created)
    case UndoWrite(abs, prior, existed, mode, privileged) =>
      if existed then WrittenBack(t, abs, prior, mode, privileged) else Removed(t, abs)
    case UndoDelete(abs, prior, mode, privileged) => WrittenBack(t, abs, prior, mode, privileged)
  }

  /** The log run last in, first out. */
  function RolledBack(t: Tree, undos: seq<Undo>): Tree
    decreases |undos|
  {
    if undos == [] then t
    else RolledBack(Undone(t, undos[|undos| - 1]), undos[..|undos| - 1])
  }

  // ----- why it restores the start -----

  /** `leak` is a directory chain that is in neither tree and obstructs neither. */
  ghost predicate Stray(start: Tree, t: Tree, leak: Path) {
    leak == [] || (leak !in start && leak !in t && Passable(start, leak) && Passable(t, leak))
  }

  /** Running the log on `t` gives `start`; and if a directory chain was left behind in `t`, it gives
      `start` with that chain. */
  ghost predicate Restores(start: Tree, t: Tree, undos: seq<Undo>) {
    forall leak :: Stray(start, t, leak) ==> RolledBack(AddDirs(t, leak), undos) == AddDirs(start, leak)
  }

  /** `u` takes `t'` back to `t`, whatever stray chain is around. */
  ghost predicate Inverts(start: Tree, t: Tree, t': Tree, u: Undo) {
    forall leak :: Stray(start, t', leak) ==>
      Stray(start, t, leak) && Undone(AddDirs(t', leak), u) == AddDirs(t, leak)
  }

  lemma RestoresLonger(start: Tree, t: Tree, t': Tree, undos: seq<Undo>, u: Undo)
    requires Restores(start, t, undos) && Inverts(start, t, t', u)
    ensures Restores(start, t', undos + [u])
  {
    forall leak | Stray(start, t', leak)
      ensures RolledBack(AddDirs(t', leak), undos + [u]) == AddDirs(start, leak)
    {
      assert (undos + [u])[..|undos|] == undos;
    }
  }

  lemma PassableUp(t: Tree, d: Path)
    requires Passable(t, d)
    ensures Passable(t, Parent(d))
  {
    var up := Parent(d);
    assert forall n :: 0 <= n <= |up| ==> up[..n] == d[..n];
    assert forall s :: s in up ==> s in d;
  }

  lemma TwoChains(t: Tree, d: Path, leak: Path)
    requires WellFormed(t) && Passable(t, d)
    ensures var both := AddDirs(AddDirs(t, d), leak);
            && (forall q :: q in both <==> q in t || Above(q, d) || Above(q, leak))
            && (forall q :: q in both ==> both[q] == if q in t then t[q] else Dir)
  {
    AddDirsWellFormed(t, d);
    AddDirsAt(t, d);
    AddDirsAt(AddDirs(t, d), leak);
  }

  /** Removing the deepest new directory leaves what was there without it, unless the stray chain passes
      through it; then it stays, as part of that chain. */
  lemma LastDirRemoved(t: Tree, d: Path, leak: Path)
    requires WellFormed(t) && Passable(t, d) && d !in t && d != []
    requires leak == [] || leak !in AddDirs(t, d)
    ensures Removed(AddDirs(AddDirs(t, d), leak), d) == AddDirs(AddDirs(t, Parent(d)), leak)
  {
    if Above(d, leak) {
      OnChainHasChild(t, d, leak);
    } else {
      NoChild(t, d, leak);
    }
    OneLevelLess(t, d, leak);
  }

  lemma OneLevelLess(t: Tree, d: Path, leak: Path)
    requires WellFormed(t) && Passable(t, d) && d !in t && d != []
    ensures var whole, rest := AddDirs(AddDirs(t, d), leak), AddDirs(AddDirs(t, Parent(d)), leak);
            if Above(d, leak) then whole == rest else whole - {d} == rest
  {
    hide AddDirs;
    PassableUp(t, d);
    TwoChains(t, d, leak);
    TwoChains(t, Parent(d), leak);
    forall q ensures Above(q, d) <==> q == d || Above(q, Parent(d)) { AboveParent(q, d); }
    assert !Above(d, Parent(d));
  }

  lemma OnChainHasChild(t: Tree, d: Path, leak: Path)
    requires WellFormed(t) && Passable(t, d) && d != []
    requires Above(d, leak) && leak !in AddDirs(t, d)
    ensures IsDir(AddDirs(AddDirs(t, d), leak), d) && HasChild(AddDirs(AddDirs(t, d), leak), d)
  {
    TwoChains(t, d, leak);
    AddDirsAt(t, d);
    assert Above(d, d);
    assert d in t ==> d == d[..|d|];
    var child := leak[..|d| + 1];
    assert Above(child, leak) && Parent(child) == d;
  }

  lemma NoChild(t: Tree, d: Path, leak: Path)
    requires WellFormed(t) && Passable(t, d) && d !in t && d != [] && !Above(d, leak)
    ensures !HasChild(AddDirs(AddDirs(t, d), leak), d)
  {
    TwoChains(t, d, leak);
    forall q | q in AddDirs(AddDirs(t, d), leak) && q != []
      ensures Parent(q) != d
    {
      if Parent(q) == d && q in t { NothingBelow(t, d, q); }
    }
  }

  lemma {:induction false} DirsRemovedBack(t: Tree, d: Path, leak: Path)
    requires WellFormed(t) && Passable(t, d)
    requires leak == [] || leak !in AddDirs(t, d)
    ensures DirsRemoved(AddDirs(AddDirs(t, d), leak), NewDirs(t, d)) == AddDirs(t, leak)
  {
    if d !in t && d != [] {
      LastDirRemoved(t, d, leak);
      PassableUp(t, d);
      AddDirsAt(t, d);
      AddDirsAt(t, Parent(d));
      AboveParent(leak, d);
      DirsRemovedBack(t, Parent(d), leak);
      assert NewDirs(t, d)[..|NewDirs(t, d)| - 1] == NewDirs(t, Parent(d));
    }
  }

  lemma DirsInvert(start: Tree, t: Tree, d: Path)
    requires WellFormed(t) && Passable(t, d)
    ensures Inverts(start, t, AddDirs(t, d), UndoDirs(NewDirs(t, d)))
  {
    var t' := AddDirs(t, d);
    AddDirsAt(t, d);
    forall leak | Stray(start, t', leak)
      ensures Stray(start, t, leak)
      ensures Undone(AddDirs(t', leak), UndoDirs(NewDirs(t, d))) == AddDirs(t, leak)
    {
      DirsRemovedBack(t, d, leak);
    }
  }

  lemma PassableNode(t: Tree, q: Path, leak: Path)
    requires Passable(t, leak)
    ensures Above(q, leak) && q in t ==> t[q].Dir?
  {
    if Above(q, leak) && q in t { assert q == leak[..|q|]; }
  }

  lemma WriteUndone(start: Tree, t: Tree, abs: Path, node: Node, leak: Path)
    requires WellFormed(t) && abs != [] && IsDir(t, Parent(abs)) && ProperName(abs[|abs| - 1])
    requires node.File? && (abs in t ==> t[abs].File?)
    requires Stray(start, t[abs := node], leak)
    ensures Stray(start, t, leak)
    ensures AddDirs(t[abs := node], leak) == AddDirs(t, leak)[abs := node]
    ensures abs in AddDirs(t, leak) <==> abs in t
    ensures abs in t ==> AddDirs(t, leak)[abs] == t[abs]
  {
    var t' := t[abs := node];
    FileStaysWellFormed(t, abs, node);
    if leak != [] {
      PassableNode(t', abs, leak);
      assert forall n :: 0 <= n <= |leak| && leak[..n] in t ==> leak[..n] in t';
    }
    assert !Above(abs, leak);
    AddDirsAt(t', leak);
    AddDirsAt(t, leak);
  }

  /** Undoing a write restores what was there, exactly unless that was a file with other content that cannot
      be opened for writing: its mode has no octal 200, and the process is not privileged. */
  lemma WriteInverts(start: Tree, t: Tree, abs: Path, data: string, mode: nat, prior: string, existed: bool,
                     privileged: bool)
    requires WellFormed(t) && abs != [] && IsDir(t, Parent(abs)) && ProperName(abs[|abs| - 1])
    requires existed <==> abs in t
    requires existed ==> t[abs] == File(prior, mode)
    ensures Inverts(start, t, t[abs := File(data, mode)], UndoWrite(abs, prior, existed, mode, privileged))
            <==> !existed || privileged || mode / 128 % 2 == 1 || data == prior
  {
    var node := File(data, mode);
    var t', u := t[abs := node], UndoWrite(abs, prior, existed, mode, privileged);
    if !existed || Reopens(privileged, mode) || data == prior {
      forall leak | Stray(start, t', leak)
        ensures Stray(start, t, leak) && Undone(AddDirs(t', leak), u) == AddDirs(t, leak)
      {
        WriteUndone(start, t, abs, node, leak);
        hide AddDirs, Stray, WellFormed, Reopens;
      }
    } else {
      assert Stray(start, t', []);
      assert AddDirs(t', []) == t' && AddDirs(t, []) == t;
      assert t'[abs] != t[abs];
    }
  }

  // ----- a write that cannot be undone -----

  /** `u` does nothing at `abs`. */
  predicate Spares(u: Undo, abs: Path) {
    match u
    case UndoDirs(created) => abs !in created
    case UndoWrite(other, _, _, _, _) => other != abs
    case UndoDelete(other, _, _, _) => other != abs
  }

  predicate AllSpare(undos: seq<Undo>, abs: Path) {
    forall i :: 0 <= i < |undos| ==> Spares(undos[i], abs)
  }

  lemma RemovedSpares(t: Tree, abs: Path, node: Node, p: Path)
    requires abs in t && t[abs].File? && node.File? && p != abs
    ensures Removed(t[abs := node], p) == Removed(t, p)[abs := node]
    ensures abs in Removed(t, p) && Removed(t, p)[abs].File?
  {
    var t' := t[abs := node];
    assert forall q :: q in t' <==> q in t;
    assert HasChild(t', p) <==> HasChild(t, p);
  }

  lemma {:induction false} DirsRemovedSpares(t: Tree, abs: Path, node: Node, created: seq<Path>)
    requires abs in t && t[abs].File? && node.File? && abs !in created
    ensures DirsRemoved(t[abs := node], created) == DirsRemoved(t, created)[abs := node]
    ensures abs in DirsRemoved(t, created) && DirsRemoved(t, created)[abs].File?
    decreases |created|
  {
    hide Removed;
    if created != [] {
      var last := created[|created| - 1];
      RemovedSpares(t, abs, node, last);
      DirsRemovedSpares(Removed(t, last), abs, node, created[..|created| - 1]);
    }
  }

  lemma WrittenBackSpares(t: Tree, abs: Path, node: Node, other: Path, data: string, mode: nat, privileged: bool)
    requires abs in t && t[abs].File? && node.File? && other != abs
    ensures var after := WrittenBack(t, other, data, mode, privileged);
            && WrittenBack(t[abs := node], other, data, mode, privileged) == after[abs := node]
            && abs in after && after[abs].File?
  {
  }

  lemma UndoneSpares(t: Tree, abs: Path, node: Node, u: Undo)
    requires abs in t && t[abs].File? && node.File? && Spares(u, abs)
    ensures Undone(t[abs := node], u) == Undone(t, u)[abs := node]
    ensures abs in Undone(t, u) && Undone(t, u)[abs].File?
  {
    hide Removed, DirsRemoved, WrittenBack;
    match u
    case UndoDirs(created) => DirsRemovedSpares(t, abs, node, created);
    case UndoWrite(other, prior, existed, mode, privileged) =>
      WrittenBackSpares(t, abs, node, other, prior, mode, privileged);
      RemovedSpares(t, abs, node, other);
    case UndoDelete(other, prior, mode, privileged) =>
      WrittenBackSpares(t, abs, node, other, prior, mode, privileged);
  }

  /** A log that spares `abs` carries its content through. */
  lemma {:induction false} RolledBackSpares(t: Tree, abs: Path, node: Node, undos: seq<Undo>)
    requires abs in t && t[abs].File? && node.File? && AllSpare(undos, abs)
    ensures RolledBack(t[abs := node], undos) == RolledBack(t, undos)[abs := node]
    decreases |undos|
  {
    hide Undone, Spares;
    if undos != [] {
      var n := |undos| - 1;
      UndoneSpares(t, abs, node, undos[n]);
      RolledBackSpares(Undone(t, undos[n]), abs, node, undos[..n]);
    }
  }

  lemma AddDirsSpares(t: Tree, abs: Path, node: Node, leak: Path)
    requires WellFormed(t) && abs != [] && abs in t && t[abs].File? && node.File? && WellFormed(t[abs := node])
    ensures AddDirs(t[abs := node], leak) == AddDirs(t, leak)[abs := node]
    ensures abs in AddDirs(t, leak) && AddDirs(t, leak)[abs] == t[abs]
  {
    AddDirsAt(t[abs := node], leak);
    AddDirsAt(t, leak);
  }

  lemma StraySpares(start: Tree, t: Tree, abs: Path, node: Node, leak: Path)
    requires abs in start && start[abs].File? && abs in t && t[abs].File? && node.File?
    requires Stray(start[abs := node], t[abs := node], leak)
    ensures Stray(start, t, leak)
  {
    if leak != [] {
      assert forall n :: 0 <= n <= |leak| && leak[..n] in start ==> start[abs := node][leak[..n]].Dir?;
      assert forall n :: 0 <= n <= |leak| && leak[..n] in t ==> t[abs := node][leak[..n]].Dir?;
    }
  }

  /** A write over a file that cannot be reopened stays: the log then restores the start with that file as
      the write left it. */
  lemma StuckWrite(start: Tree, t: Tree, undos: seq<Undo>, abs: Path, node: Node, prior: string, privileged: bool)
    requires WellFormed(start) && WellFormed(t) && Restores(start, t, undos) && AllSpare(undos, abs) && abs != []
    requires abs in start && start[abs].File? && abs in t && t[abs].File?
    requires node.File? && !Reopens(privileged, node.mode)
    ensures Restores(start[abs := node], t[abs := node], undos + [UndoWrite(abs, prior, true, node.mode, privileged)])
  {
    var goal, t', u := start[abs := node], t[abs := node], UndoWrite(abs, prior, true, node.mode, privileged);
    FileReplaced(start, abs, node);
    FileReplaced(t, abs, node);
    forall leak | Stray(goal, t', leak)
      ensures RolledBack(AddDirs(t', leak), undos + [u]) == AddDirs(goal, leak)
    {
      StraySpares(start, t, abs, node, leak);
      AddDirsSpares(t, abs, node, leak);
      AddDirsSpares(start, abs, node, leak);
      RolledBackSpares(AddDirs(t, leak), abs, node, undos);
      StuckUndo(AddDirs(t', leak), u);
      assert (undos + [u])[..|undos|] == undos;
      hide AddDirs, Stray, WellFormed, Reopens, Undone, AllSpare;
    }
  }

  lemma StuckUndo(t: Tree, u: Undo)
    requires u.UndoWrite? && u.existed && u.abs in t && t[u.abs].File? && !Reopens(u.privileged, t[u.abs].mode)
    ensures Undone(t, u) == t
  {
  }

  lemma FileReplaced(t: Tree, abs: Path, node: Node)
    requires WellFormed(t) && abs != [] && abs in t && t[abs].File? && node.File?
    ensures WellFormed(t[abs := node])
  {
    assert Placed(t, abs);
    FileStaysWellFormed(t, abs, node);
  }

  lemma FileStaysWellFormed(t: Tree, abs: Path, node: Node)
    requires WellFormed(t) && abs != [] && IsDir(t, Parent(abs)) && !IsDir(t, abs)
    requires ProperName(abs[|abs| - 1])
    ensures WellFormed(t[abs := node])
  {
    var t' := t[abs := node];
    forall p | p in t' ensures Placed(t', p) {
      if p in t {
        assert Placed(t, p);
        if p != [] && Parent(p) == abs { NothingBelow(t, abs, p); }
      }
    }
  }

  lemma DeleteInverts(start: Tree, t: Tree, abs: Path, privileged: bool)
    requires WellFormed(t) && abs != [] && abs in t && t[abs].File?
    requires abs in start && start[abs].File?
    ensures Inverts(start, t, t - {abs}, UndoDelete(abs, t[abs].data, t[abs].mode, privileged))
  {
    var t' := t - {abs};
    FileGoneWellFormed(t, abs);
    forall leak | Stray(start, t', leak)
      ensures Stray(start, t, leak)
      ensures Undone(AddDirs(t', leak), UndoDelete(abs, t[abs].data, t[abs].mode, privileged)) == AddDirs(t, leak)
    {
      if leak != [] {
        PassableNode(start, abs, leak);
        assert forall n :: 0 <= n <= |leak| && leak[..n] in t && leak[..n] != abs ==> leak[..n] in t';
        assert forall n :: 0 <= n <= |leak| ==> Above(leak[..n], leak);
      }
      AddDirsAt(t', leak);
      AddDirsAt(t, leak);
      assert !Above(abs, []);
      assert Placed(t, abs);
      assert AddDirs(t', leak)[abs := t[abs]] == AddDirs(t, leak);
    }
  }

  lemma FileGoneWellFormed(t: Tree, abs: Path)
    requires WellFormed(t) && abs != [] && !IsDir(t, abs)
    ensures WellFormed(t - {abs})
  {
    var t' := t - {abs};
    forall p | p in t' ensures Placed(t', p) {
      assert Placed(t, p);
    }
  }
}
