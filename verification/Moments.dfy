/** Exactly when somebody who looks during a batch can find a target that is neither old nor new. */
module Moments {
  import opened Text
  import opened Types
  import opened Paths
  import opened FileTree
  import opened PathSafe
  import opened Writer
  import opened Rollback
  import opened Batch
  import opened Apply

  /** On a disk that refuses nothing, an absent target is a directory at some moment exactly if the batch comes to
      a write beneath it; and then it is neither as before nor as asked. */
  method DirectoryIsSeen(w: FileWriter, ops: seq<FileOp>, ghost k: nat) returns (r: Result<seq<Change>, WriteError>)
    requires WellFormed(w.disk.tree) && IsDir(w.disk.tree, w.v.root) && Plan(w.v, w.disk.tree, ops).Success?
    requires var batch := Plan(w.v, w.disk.tree, ops).value;
             k < |batch| && !batch[k].existed && !NamesCollide(w.disk.suffixes, w.disk.tree, batch)
    requires forall clock: nat, step :: w.disk.verdicts(clock, step).Proceed?
    modifies w.disk
    ensures var batch := Plan(w.v, old(w.disk.tree), ops).value;
            && ((exists s :: SeenSince(old(w.disk.seen), w.disk.seen, s) && IsDir(s, batch[k].abs))
                <==> MadeFor(old(w.disk.tree), batch, batch[k].abs))
            && (forall s :: IsDir(s, batch[k].abs) ==>
                 !AsBefore(old(w.disk.tree), s, batch[k].abs) && !AsAsked(s, batch[k]))
  {
    hide *;
    ghost var start, before, batch := w.disk.tree, w.disk.seen, Plan(w.v, w.disk.tree, ops).value;
    PlanExact(w.v, start, ops);
    ghost var reached;
    r, reached := w.Apply(ops);
    NotRefused(w.disk);
    OnlyIfMade(before, w.disk.seen, w.v, start, ops, batch, k);
    if MadeFor(start, batch, batch[k].abs) {
      MadeIsSeen(before, w.disk.seen, start, w.v.root, batch, k, reached);
    }
    DirectoryIsNeither(start, w.v.root, batch, k);
  }

  lemma NotRefused(disk: Disk)
    requires forall clock: nat, step :: disk.verdicts(clock, step).Proceed?
    ensures !disk.Refused()
  {
  }

  lemma OnlyIfMade(before: seq<Tree>, after: seq<Tree>, v: Validator, start: Tree, ops: seq<FileOp>,
                   batch: seq<PlannedOp>, k: nat)
    requires ShapeLog(before, after, v, start, ops) && Plan(v, start, ops) == Success(batch)
    requires Plannable(start, v.root, batch) && k < |batch| && !batch[k].existed
    ensures forall s :: SeenSince(before, after, s) && IsDir(s, batch[k].abs) ==> MadeFor(start, batch, batch[k].abs)
  {
    assert Recorded(start, v.root, batch[k]);
    forall s | SeenSince(before, after, s) && IsDir(s, batch[k].abs)
      ensures MadeFor(start, batch, batch[k].abs)
    {
      hide Shape, MadeFor, IsDir, Plan, SafePlace;
      TargetsAreWhole(start, v.root, batch, s, batch[k]);
    }
  }

  lemma MadeIsSeen(before: seq<Tree>, after: seq<Tree>, start: Tree, root: Path, batch: seq<PlannedOp>, k: nat,
                   reached: nat)
    requires Plannable(start, root, batch) && k < |batch| && MadeFor(start, batch, batch[k].abs)
    requires InstallsSeen(before, after, start, batch, reached)
    requires reached == |batch| || Stopped(start, batch, reached)
    ensures exists s :: SeenSince(before, after, s) && IsDir(s, batch[k].abs)
  {
    hide WritesDone, Plannable, Unblocked, SeenSince;
    var m: nat :| MadeAt(start, batch, batch[k].abs, m);
    assert m < reached;
    MadeIsDir(start, root, batch, batch[k].abs, m);
    assert SeenSince(before, after, WritesDone(start, batch, m + 1));
  }

  lemma MadeIsDir(start: Tree, root: Path, batch: seq<PlannedOp>, q: Path, m: nat)
    requires Plannable(start, root, batch) && MadeAt(start, batch, q, m)
    ensures IsDir(WritesDone(start, batch, m + 1), q)
  {
    hide WritesDone, Plannable, Unhindered, WellFormed;
    var s, abs := WritesDone(start, batch, m + 1), batch[m].abs;
    WritesWellFormed(start, root, batch, m + 1);
    TargetIsFile(start, root, batch, m, m + 1);
    assert abs[..|q|] == q;
    AncestorsAreDirs(s, abs, |q|);
  }

  lemma DirectoryIsNeither(start: Tree, root: Path, batch: seq<PlannedOp>, k: nat)
    requires Plannable(start, root, batch) && k < |batch| && !batch[k].existed
    ensures forall s :: IsDir(s, batch[k].abs) ==> !AsBefore(start, s, batch[k].abs) && !AsAsked(s, batch[k])
  {
    assert Recorded(start, root, batch[k]);
    hide SafePlace;
  }

  /** An absent target with a staging name, when the batch comes to a write in its directory: the staging of that
      write can pick the name, and leaves an empty file there. */
  method StagingNameIsSeen(disk: Disk, ghost start: Tree, ghost root: Path, ghost batch: seq<PlannedOp>,
                           ghost p: PlannedOp, m: nat, write: PlannedOp)
    requires Plannable(start, root, batch) && p in batch && !p.existed
    requires StagedAt(start, batch, p.abs, m) && batch[m] == write
    requires disk.tree == AddDirs(WritesDone(start, batch, m), Parent(write.abs))
    requires p.abs[|p.abs| - 1] == ".gw-tmp-" + disk.suffixes(disk.clock)
    requires disk.verdicts(disk.clock, MakingTemp).Proceed?
    modifies disk
    ensures disk.tree == old(disk.tree)[p.abs := File("", 0x180)]
    ensures !AsBefore(start, disk.tree, p.abs) && !AsAsked(disk.tree, p)
  {
    hide WritesDone, AddDirs, WellFormed, Passable;
    StagedInDirectory(start, root, batch, p, m);
    var tmp, ok := disk.CreateTemp(Parent(write.abs));
  }

  lemma StagedInDirectory(start: Tree, root: Path, batch: seq<PlannedOp>, p: PlannedOp, m: nat)
    requires Plannable(start, root, batch) && p in batch && !p.existed && StagedAt(start, batch, p.abs, m)
    ensures p.abs != [] && p.abs !in start && p.mode == DEFAULT_MODE
    ensures p.abs == Parent(batch[m].abs) + [p.abs[|p.abs| - 1]]
    ensures var t := AddDirs(WritesDone(start, batch, m), Parent(batch[m].abs));
            IsDir(t, Parent(batch[m].abs)) && p.abs !in t
  {
    assert Recorded(start, root, p);
    var t, dir := WritesDone(start, batch, m), Parent(batch[m].abs);
    WritesWellFormed(start, root, batch, m);
    AboveItself(t, dir);
    AddDirsAt(t, dir);
    hide WritesDone, AddDirs, WellFormed, Passable, SafePlace;
  }
}
