/** Exactly when a failed batch gives the worktree back. */
module Leaks {
  import opened Text
  import opened Types
  import opened Paths
  import opened FileTree
  import opened PathSafe
  import opened Writer
  import opened Rollback
  import opened Batch
  import opened Apply

  /** What a failure leaves is the start exactly if nothing leaked and every write that sticks rewrote what was
      there. */
  lemma RestoredExactly(start: Tree, root: Path, batch: seq<PlannedOp>, n: nat, privileged: bool, leak: Path)
    requires Plannable(start, root, batch) && n <= |batch| && (leak == [] || leak !in start)
    ensures AddDirs(Frozen(start, batch, n, privileged), leak) == start <==>
            leak == [] && NothingSticks(batch, n, privileged)
  {
    FrozenIsStart(start, root, batch, n, privileged);
    FrozenAt(start, root, batch, n, privileged);
    AddDirsAt(Frozen(start, batch, n, privileged), leak);
    assert Above(leak, leak);
    hide Frozen, Sticks;
  }

  /** Every write over a file that cannot be reopened rewrites what it held. */
  predicate NothingSticks(batch: seq<PlannedOp>, n: nat, privileged: bool)
    requires n <= |batch|
  {
    forall m :: 0 <= m < n && Sticks(batch[m], privileged) ==> batch[m].content == batch[m].before
  }

  ghost predicate NeverLeaky(start: Tree, batch: seq<PlannedOp>) {
    forall n :: 0 <= n < |batch| ==> !Leaky(start, batch, n)
  }

  /** This step can fail once write `m` is done: it installs a later write, or it removes a file. */
  ghost predicate FailsAfter(batch: seq<PlannedOp>, m: nat, step: Step) {
    match step
    case Renaming(target) => exists k :: m < k < |batch| && IsWrite(batch[k]) && batch[k].abs == target
    case Removing => DoomedTargets(batch) != {}
    case _ => false
  }

  /** The batch comes to write `m` with nothing in its way; the write changes a file that cannot be opened for
      writing again; and there is a step to fail after it. */
  ghost predicate CanStick(start: Tree, batch: seq<PlannedOp>, privileged: bool, m: nat) {
    && m < |batch| && Sticks(batch[m], privileged) && batch[m].content != batch[m].before
    && Unhindered(start, batch, m + 1)
    && exists step :: FailsAfter(batch, m, step)
  }

  ghost predicate NeverSticks(start: Tree, batch: seq<PlannedOp>, privileged: bool) {
    forall m :: 0 <= m < |batch| ==> !CanStick(start, batch, privileged, m)
  }

  /** Any failure restores the prior state, exactly unless its step was a mkdir after the first of its MkdirAll, or
      a write that cannot be undone had been done. The first cannot be for a batch that is leaky at no write, the
      second cannot be for one that can stick at no write: if it is neither, every failure on every disk restores the
      tree. */
  method FailureRestores(w: FileWriter, ops: seq<FileOp>)
         returns (r: Result<seq<Change>, WriteError>, ghost reached: nat)
    requires WellFormed(w.disk.tree) && IsDir(w.disk.tree, w.v.root)
    modifies w.disk
    ensures var plan := Plan(w.v, old(w.disk.tree), ops); r.Failure? ==>
              if plan.Failure? then w.disk.tree == old(w.disk.tree)
              else
                && reached <= |plan.value|
                && (w.disk.tree == old(w.disk.tree) <==>
                      && !(w.disk.last.MakingDir? && w.disk.last.made > 0)
                      && NothingSticks(plan.value, reached, w.disk.privileged))
                && (NeverLeaky(old(w.disk.tree), plan.value) ==> !(w.disk.last.MakingDir? && w.disk.last.made > 0))
                && (NeverSticks(old(w.disk.tree), plan.value, w.disk.privileged) ==>
                      NothingSticks(plan.value, reached, w.disk.privileged))
                && (NeverLeaky(old(w.disk.tree), plan.value)
                    && NeverSticks(old(w.disk.tree), plan.value, w.disk.privileged) ==>
                      w.disk.tree == old(w.disk.tree))
  {
    hide *;
    ghost var start := w.disk.tree;
    PlanExact(w.v, start, ops);
    r, reached := w.Apply(ops);
    if r.Failure? {
      LeftRestores(w.v, start, ops, reached, w.disk.privileged, w.disk.tree, w.disk.leaked, w.disk.touched);
      if Plan(w.v, start, ops).Success? {
        NothingStuck(w.disk.verdicts, start, Plan(w.v, start, ops).value, reached, w.disk.privileged, w.disk.last);
      }
    }
  }

  lemma NothingStuck(verdicts: Oracle, start: Tree, batch: seq<PlannedOp>, reached: nat, privileged: bool, last: Step)
    requires Passed(verdicts, start, batch, reached) && FailedAt(batch, reached, last)
    ensures reached <= |batch|
    ensures NeverSticks(start, batch, privileged) ==> NothingSticks(batch, reached, privileged)
  {
    hide AllMade, Renamed, WritesDone, Unblocked, DoomedTargets;
    if m :| 0 <= m < reached && Sticks(batch[m], privileged) && batch[m].content != batch[m].before {
      if reached < |batch| {
        assert FailsAfter(batch, m, Renaming(batch[reached].abs));
      } else {
        assert FailsAfter(batch, m, Removing);
      }
      assert CanStick(start, batch, privileged, m);
    }
  }

  lemma LeftRestores(v: Validator, start: Tree, ops: seq<FileOp>, reached: nat, privileged: bool,
                     t: Tree, leaked: Path, touched: set<Path>)
    requires LeftBehind(v, start, ops, reached, privileged, t, leaked, touched)
    requires Plan(v, start, ops).Success? ==> Plannable(start, v.root, Plan(v, start, ops).value)
    ensures var plan := Plan(v, start, ops);
            if plan.Failure? then t == start
            else
              && reached <= |plan.value|
              && (t == start <==> leaked == [] && NothingSticks(plan.value, reached, privileged))
              && (NeverLeaky(start, plan.value) ==> leaked == [])
  {
    var plan := Plan(v, start, ops);
    if plan.Success? {
      RestoredExactly(start, v.root, plan.value, reached, privileged, leaked);
    }
    hide Leaky, Frozen, Plan, Plannable;
  }

  /** A batch with one write target above another fails, and without a refused step it leaves no trace but for
      writes that cannot be undone. */
  method ConflictFails(w: FileWriter, ops: seq<FileOp>) returns (r: Result<seq<Change>, WriteError>, ghost reached: nat)
    requires WellFormed(w.disk.tree) && IsDir(w.disk.tree, w.v.root) && Plan(w.v, w.disk.tree, ops).Success?
    requires !PrefixFree(Plan(w.v, w.disk.tree, ops).value)
    modifies w.disk
    ensures r.Failure? && reached <= |Plan(w.v, old(w.disk.tree), ops).value|
    ensures !w.disk.faulted ==>
              (w.disk.tree == old(w.disk.tree) <==>
                 NothingSticks(Plan(w.v, old(w.disk.tree), ops).value, reached, w.disk.privileged))
  {
    hide *;
    ghost var start := w.disk.tree;
    PlanExact(w.v, start, ops);
    r, reached := w.Apply(ops);
    LeftRestores(w.v, start, ops, reached, w.disk.privileged, w.disk.tree, w.disk.leaked, w.disk.touched);
  }

  /** Every MkdirAll makes its first directory and fails at its second. */
  function SecondMkdirFails(clock: nat, step: Step): Verdict {
    if step.MakingDir? && step.made == 1 then Fault(0) else Proceed
  }

  /** A leaky batch leaks: on a disk that answers like this, Apply fails and leaves a directory behind. With
      what Apply promises, a leak is possible exactly for the batches that are leaky at some write. */
  method LeakIsReached(w: FileWriter, ops: seq<FileOp>, ghost n: nat) returns (r: Result<seq<Change>, WriteError>)
    requires WellFormed(w.disk.tree) && IsDir(w.disk.tree, w.v.root) && !w.disk.faulted
    requires Plan(w.v, w.disk.tree, ops).Success? && Leaky(w.disk.tree, Plan(w.v, w.disk.tree, ops).value, n)
    requires forall clock: nat, step :: w.disk.verdicts(clock, step) == SecondMkdirFails(clock, step)
    requires !NamesCollide(w.disk.suffixes, w.disk.tree, Plan(w.v, w.disk.tree, ops).value)
    modifies w.disk
    ensures r.Failure? && w.disk.leaked != [] && w.disk.leaked !in old(w.disk.tree) && w.disk.leaked in w.disk.tree
  {
    hide *;
    ghost var start, batch := w.disk.tree, Plan(w.v, w.disk.tree, ops).value;
    ghost var reached;
    LeakyMeans(start, batch, n);
    r, reached := w.Apply(ops);
    NotPassed(w.disk.verdicts, start, batch, n, reached);
    PassedOrStopped(w.disk.verdicts, start, batch, n, reached);
    RefusedAt(w.disk);
    LeftMeans(w.v, start, ops, reached, w.disk.privileged, w.disk.tree, w.disk.leaked, w.disk.touched);
    LeakIsIn(Frozen(start, batch, reached, w.disk.privileged), w.disk.leaked);
  }

  lemma LeftMeans(v: Validator, start: Tree, ops: seq<FileOp>, reached: nat, privileged: bool,
                  t: Tree, leaked: Path, touched: set<Path>)
    requires LeftBehind(v, start, ops, reached, privileged, t, leaked, touched) && Plan(v, start, ops).Success?
    ensures var batch := Plan(v, start, ops).value;
            && reached <= |batch| && t == AddDirs(Frozen(start, batch, reached, privileged), leaked)
            && (leaked != [] ==> reached < |batch| && leaked !in start && v.root < leaked < batch[reached].abs)
  {
  }

  lemma LeakyMeans(start: Tree, batch: seq<PlannedOp>, n: nat)
    requires Leaky(start, batch, n)
    ensures n < |batch| && IsWrite(batch[n]) && Unblocked(WritesDone(start, batch, n), batch[n])
    ensures forall m :: 0 <= m <= n && IsWrite(batch[m]) ==> Unblocked(WritesDone(start, batch, m), batch[m])
  {
  }

  lemma NotPassed(verdicts: Oracle, start: Tree, batch: seq<PlannedOp>, n: nat, reached: nat)
    requires Leaky(start, batch, n)
    requires forall clock: nat, step :: verdicts(clock, step) == SecondMkdirFails(clock, step)
    ensures Passed(verdicts, start, batch, reached) ==> reached <= n < |batch|
  {
    var dirs := NewDirs(WritesDone(start, batch, n), Parent(batch[n].abs));
    forall clock: nat
      ensures !MadeFrom(verdicts, clock, dirs)
    {
      assert verdicts(clock + 1, MakingDir(dirs[1], 1)).Fault?;
    }
    hide MadeFrom, WritesDone, NewDirs;
  }

  lemma PassedOrStopped(verdicts: Oracle, start: Tree, batch: seq<PlannedOp>, n: nat, reached: nat)
    requires Leaky(start, batch, n)
    ensures reached <= n ==> !Stopped(start, batch, reached)
  {
    LeakyMeans(start, batch, n);
  }

  lemma RefusedAt(disk: Disk)
    requires forall clock: nat, step :: disk.verdicts(clock, step) == SecondMkdirFails(clock, step)
    ensures disk.Refused() ==> disk.last.MakingDir? && disk.last.made > 0
  {
  }

  lemma LeakIsIn(t: Tree, leak: Path)
    requires leak != []
    ensures leak in AddDirs(t, leak)
  {
  }

  /** One step fails whenever it is tried, and no other. */
  function Refuses(refused: Step, step: Step): Verdict {
    if step == refused then Fault(0) else Proceed
  }

  /** A batch that can stick at some write does: on a disk that refuses a step after it, Apply fails and the write
      stays. With what Apply promises, a failure leaves a stuck write on some disk exactly for these batches. */
  method StickIsReached(w: FileWriter, ops: seq<FileOp>, ghost m: nat, ghost refused: Step)
    returns (r: Result<seq<Change>, WriteError>)
    requires WellFormed(w.disk.tree) && IsDir(w.disk.tree, w.v.root) && Plan(w.v, w.disk.tree, ops).Success?
    requires var batch := Plan(w.v, w.disk.tree, ops).value;
             && CanStick(w.disk.tree, batch, w.disk.privileged, m) && FailsAfter(batch, m, refused)
             && !NamesCollide(w.disk.suffixes, w.disk.tree, batch)
    requires forall clock: nat, step :: w.disk.verdicts(clock, step) == Refuses(refused, step)
    modifies w.disk
    ensures r.Failure? && w.disk.tree != old(w.disk.tree)
  {
    hide *;
    ghost var start, batch := w.disk.tree, Plan(w.v, w.disk.tree, ops).value;
    PlanExact(w.v, start, ops);
    PlannableIsDistinct(start, w.v.root, batch);
    ghost var reached;
    r, reached := w.Apply(ops);
    CannotPass(w.disk.verdicts, start, batch, m, refused, reached);
    StepRefused(w.disk, refused);
    if r.Failure? {
      LeftRestores(w.v, start, ops, reached, w.disk.privileged, w.disk.tree, w.disk.leaked, w.disk.touched);
      ComesAfter(start, batch, w.disk.privileged, m, refused, reached, w.disk.last);
    }
  }

  lemma PlannableIsDistinct(start: Tree, root: Path, batch: seq<PlannedOp>)
    requires Plannable(start, root, batch)
    ensures Distinct(batch)
  {
  }

  lemma CannotPass(verdicts: Oracle, start: Tree, batch: seq<PlannedOp>, m: nat, refused: Step, reached: nat)
    requires FailsAfter(batch, m, refused) && Passed(verdicts, start, batch, reached)
    requires forall clock: nat, step :: verdicts(clock, step) == Refuses(refused, step)
    ensures reached < |batch| || (DoomedTargets(batch) != {} && !SomeRemoval(verdicts))
  {
    hide WritesDone, NewDirs, AllMade, Unhindered, DoomedTargets;
    match refused {
      case Renaming(target) =>
        var k :| m < k < |batch| && IsWrite(batch[k]) && batch[k].abs == target;
        assert !Renamed(verdicts, target);
      case Removing =>
        assert !SomeRemoval(verdicts);
      case _ =>
    }
  }

  lemma StepRefused(disk: Disk, refused: Step)
    requires forall clock: nat, step :: disk.verdicts(clock, step) == Refuses(refused, step)
    ensures disk.Refused() ==> disk.last == refused
  {
  }

  lemma ComesAfter(start: Tree, batch: seq<PlannedOp>, privileged: bool, m: nat, refused: Step, reached: nat,
                   last: Step)
    requires CanStick(start, batch, privileged, m) && FailsAfter(batch, m, refused) && Distinct(batch)
    requires FailedAt(batch, reached, last) && (last.Removing? ==> reached == |batch|)
    requires last == refused || Stopped(start, batch, reached)
    ensures m < reached <= |batch| && !NothingSticks(batch, reached, privileged)
  {
    hide WritesDone, Unblocked, DoomedTargets;
    if last == refused && refused.Renaming? {
      var k :| m < k < |batch| && IsWrite(batch[k]) && batch[k].abs == refused.target;
      assert k == reached;
    }
  }

  // ----- one such run -----

  const WORKTREE: Tree := map[[] := Dir, ["w"] := Dir]
  const DEEP_WRITE := FileOp(OpWrite, "a/b/x", "a/b/x", "text")
  const DEEP_PLAN := PlannedOp(["a", "b", "x"], ["w", "a", "b", "x"], OpCreate, "text", DEFAULT_MODE, false, "", false)

  lemma DeepRelative(root: Path)
    ensures Relative(root, "a/b/x") == Success(["a", "b", "x"]) && TrimSpace("a/b/x") != ""
  {
    var rel := ["a", "b", "x"];
    var p := GoPath(false, rel);
    assert CanonicalAt(p, 0) by { assert p.segs[0..] == rel; }
    assert Join(["x"], '/') == "x";
    assert rel[1..] == ["b", "x"] && ["b", "x"][1..] == ["x"];
    assert Join(["b", "x"], '/') == "b/x";
    assert Render(p) == "a/b/x";
    ParseOfRender(p);
    TrimmedIsFixed("a/b/x");
    hide ParsePath, Render, CanonicalAt, ProperNames;
  }

  lemma DeepPlace()
    ensures ResolvedPlace(WORKTREE, ["w"], ["a", "b", "x"]) == Some(["w", "a", "b", "x"])
    ensures Lstat(WORKTREE, ["w", "a", "b", "x"]) == NotExist
  {
    var rel, abs := ["a", "b", "x"], ["w", "a", "b", "x"];
    assert ["w"] + rel == abs;
    PlaceWithoutLinks(WORKTREE, ["w"], rel);
    PlaceSound(WORKTREE, ["w"], rel);
    hide ResolvedPlace, Walk;
    assert SafePlace(WORKTREE, abs);
    assert Lstat(WORKTREE, abs) == Walk(WORKTREE, KERNEL_LINKS, [], abs, false);
  }

  lemma DeepResolved(v: Validator)
    requires v.root == ["w"] && v.binaryExt == {} && v.rules == []
    ensures Resolve(v, WORKTREE, "a/b/x") == Success(Resolved(["a", "b", "x"], ["w", "a", "b", "x"]))
  {
    DeepRelative(v.root);
    DeepPlace();
    hide Relative, ResolvedPlace, TrimSpace, Ext, ToLower, Lstat, RelString;
  }

  lemma DeepPlanned(v: Validator)
    requires v.root == ["w"] && v.binaryExt == {} && v.rules == []
    ensures Plan(v, WORKTREE, [DEEP_WRITE]) == Success([DEEP_PLAN])
  {
    DeepResolved(v);
    DeepPlace();
    hide Resolve, Lstat, ResolvedPlace;
    assert [DEEP_WRITE][..0] == [];
    assert Plan(v, WORKTREE, []) == Success([]);
    assert Classify(v, WORKTREE, DEEP_WRITE) == Success(DEEP_PLAN);
    assert [] + [DEEP_PLAN] == [DEEP_PLAN];
  }

  lemma DeepIsLeaky()
    ensures Leaky(WORKTREE, [DEEP_PLAN], 0) && WellFormed(WORKTREE)
    ensures forall leak :: leak < DEEP_PLAN.abs && ["w"] < leak ==> Above(["w", "a"], leak)
  {
    var dir := ["w", "a", "b"];
    assert Parent(DEEP_PLAN.abs) == dir;
    assert Parent(dir) == ["w", "a"] && Parent(["w", "a"]) == ["w"];
    assert NewDirs(WORKTREE, ["w", "a"]) == [] + [["w", "a"]];
    assert NewDirs(WORKTREE, dir) == [["w", "a"]] + [dir];
    assert dir[..0] == [] && dir[..1] == ["w"] && dir[..2] == ["w", "a"] && dir[..3] == dir;
    assert forall n :: 0 <= n <= 3 ==> dir[..n] == [] || dir[..n] == ["w"] || dir[..n] == ["w", "a"] || dir[..n] == dir;
    forall leak | leak < DEEP_PLAN.abs && ["w"] < leak
      ensures Above(["w", "a"], leak)
    {
      assert leak == DEEP_PLAN.abs[..|leak|];
    }
  }

  /** An empty worktree, one new file two directories down, and a second mkdir that fails: Apply fails and the
      first directory stays. */
  method DeepWriteLeaks(w: FileWriter) returns (r: Result<seq<Change>, WriteError>)
    requires w.v.root == ["w"] && w.v.binaryExt == {} && w.v.rules == [] && w.disk.tree == WORKTREE && !w.disk.faulted
    requires forall clock: nat, step :: w.disk.verdicts(clock, step) == SecondMkdirFails(clock, step)
    requires !NamesCollide(w.disk.suffixes, WORKTREE, [DEEP_PLAN])
    modifies w.disk
    ensures r.Failure? && ["w", "a"] in w.disk.tree && ["w", "a"] !in old(w.disk.tree)
  {
    hide *;
    DeepPlanned(w.v);
    DeepIsLeaky();
    DeepWorktree();
    ghost var reached;
    r, reached := w.Apply([DEEP_WRITE]);
    NotPassed(w.disk.verdicts, WORKTREE, [DEEP_PLAN], 0, reached);
    PassedOrStopped(w.disk.verdicts, WORKTREE, [DEEP_PLAN], 0, reached);
    RefusedAt(w.disk);
    LeftMeans(w.v, WORKTREE, [DEEP_WRITE], reached, w.disk.privileged, w.disk.tree, w.disk.leaked, w.disk.touched);
    DeepLeak(w.disk.privileged, w.disk.leaked);
  }

  lemma DeepWorktree()
    ensures WellFormed(WORKTREE) && IsDir(WORKTREE, ["w"]) && ["w", "a"] !in WORKTREE
  {
  }

  lemma DeepLeak(privileged: bool, leak: Path)
    requires Above(["w", "a"], leak)
    ensures ["w", "a"] in AddDirs(Frozen(WORKTREE, [DEEP_PLAN], 0, privileged), leak)
  {
    AddDirsAt(WORKTREE, leak);
  }
}
