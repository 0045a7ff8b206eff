/** What a planned batch means: the tree it asks for, and the trees it may pass through. */
module Batch {
  import opened Text
  import opened Types
  import opened Paths
  import opened FileTree
  import opened PathSafe
  import opened Writer
  import opened Rollback

  function NewFile(p: PlannedOp): Node {
    File(p.content, p.mode)
  }

  /** One write: missing parents made, then the file put in place. */
  function Installed(t: Tree, p: PlannedOp): Tree {
    AddDirs(t, Parent(p.abs))[p.abs := NewFile(p)]
  }

  predicate Deletes(p: PlannedOp) {
    p.operation == OpDelete && !p.skipped
  }

  function WritesDone(t: Tree, batch: seq<PlannedOp>, n: nat): Tree
    requires n <= |batch|
  {
    if n == 0 then t
    else
      var before := WritesDone(t, batch, n - 1);
      if batch[n - 1].operation != OpDelete then Installed(before, batch[n - 1]) else before
  }

  function DeletesDone(t: Tree, batch: seq<PlannedOp>, n: nat): Tree
    requires n <= |batch|
  {
    if n == 0 then t
    else
      var before := DeletesDone(t, batch, n - 1);
      if Deletes(batch[n - 1]) then before - {batch[n - 1].abs} else before
  }

  /** All writes in batch order, then all deletes. */
  function Final(t: Tree, batch: seq<PlannedOp>): Tree {
    DeletesDone(WritesDone(t, batch, |batch|), batch, |batch|)
  }

  /** No write target is a proper path prefix of another write's target. */
  ghost predicate PrefixFree(batch: seq<PlannedOp>) {
    forall p, q :: p in batch && q in batch && IsWrite(p) && IsWrite(q) ==> !(p.abs < q.abs)
  }

  // ----- the declarative update -----

  /** The write of the batch that targets `q`, if there is one. */
  function WriteFor(batch: seq<PlannedOp>, q: Path): (r: Option<PlannedOp>)
    ensures r.Some? ==> r.value in batch && IsWrite(r.value) && r.value.abs == q
    ensures r.None? ==> forall p :: p in batch && IsWrite(p) ==> p.abs != q
  {
    if batch == [] then None
    else
      var last := batch[|batch| - 1];
      assert forall p :: p in batch ==> p == last || p in batch[..|batch| - 1];
      if last.operation != OpDelete && last.abs == q then Some(last)
      else WriteFor(batch[..|batch| - 1], q)
  }

  /** `q` is a write target or an ancestor of one. */
  ghost predicate Needed(batch: seq<PlannedOp>, q: Path) {
    exists p :: p in batch && IsWrite(p) && Above(q, p.abs)
  }

  ghost predicate Doomed(batch: seq<PlannedOp>, q: Path) {
    exists p :: p in batch && Deletes(p) && p.abs == q
  }

  /** What an entry the batch leaves in the tree is: a target holds its content with its mode, an old
      entry is as it was, a missing parent is a directory. */
  function NodeAfter(start: Tree, batch: seq<PlannedOp>, q: Path): Node {
    match WriteFor(batch, q)
    case Some(p) => NewFile(p)
    case None => if q in start then start[q] else Dir
  }

  /** `t` is `start` with every write of the batch in place. */
  ghost predicate Written(start: Tree, batch: seq<PlannedOp>, t: Tree) {
    && (forall q :: q in t <==> q in start || Needed(batch, q))
    && (forall q :: q in t ==> t[q] == NodeAfter(start, batch, q))
  }

  /** `t` is what the batch declares, made from `start`. */
  ghost predicate Declared(start: Tree, batch: seq<PlannedOp>, t: Tree) {
    && (forall q :: q in t <==> (q in start && !Doomed(batch, q)) || Needed(batch, q))
    && (forall q :: q in t ==> t[q] == NodeAfter(start, batch, q))
  }

  lemma SnocBatch(batch: seq<PlannedOp>, p: PlannedOp)
    ensures forall q :: Needed(batch + [p], q) <==> Needed(batch, q) || (IsWrite(p) && Above(q, p.abs))
    ensures forall q :: WriteFor(batch + [p], q) ==
                        if IsWrite(p) && p.abs == q then Some(p) else WriteFor(batch, q)
  {
    var longer := batch + [p];
    assert p in longer && longer[..|batch|] == batch && longer[|batch|] == p;
    forall q | Needed(batch, q) ensures Needed(longer, q) {
      var p' :| p' in batch && IsWrite(p') && Above(q, p'.abs);
      assert p' in longer;
    }
  }

  lemma InstalledAt(t: Tree, p: PlannedOp)
    requires WellFormed(t) && p.abs != []
    ensures forall q :: q in Installed(t, p) <==> q in t || Above(q, p.abs)
    ensures forall q :: q in Installed(t, p) ==>
              Installed(t, p)[q] == if q == p.abs then NewFile(p) else if q in t then t[q] else Dir
  {
    AddDirsAt(t, Parent(p.abs));
    forall q ensures Above(q, p.abs) <==> q == p.abs || Above(q, Parent(p.abs)) { AboveParent(q, p.abs); }
  }

  lemma WriteForNeeded(batch: seq<PlannedOp>, q: Path)
    ensures WriteFor(batch, q).Some? ==> Needed(batch, q)
  {
    var w := WriteFor(batch, q);
    if w.Some? { assert Above(q, w.value.abs); }
  }

  lemma InstalledNode(start: Tree, batch: seq<PlannedOp>, t: Tree, p: PlannedOp, q: Path)
    requires Written(start, batch, t) && WellFormed(t) && p.abs != [] && IsWrite(p)
    requires q in Installed(t, p)
    ensures Installed(t, p)[q] == NodeAfter(start, batch + [p], q)
  {
    InstalledAt(t, p);
    SnocBatch(batch, p);
    WriteForNeeded(batch, q);
    hide Installed, WriteFor, Needed, WellFormed;
  }

  lemma WrittenLonger(start: Tree, batch: seq<PlannedOp>, t: Tree, p: PlannedOp)
    requires Written(start, batch, t) && WellFormed(t) && p.abs != []
    ensures Written(start, batch + [p], if IsWrite(p) then Installed(t, p) else t)
  {
    SnocBatch(batch, p);
    if IsWrite(p) {
      InstalledAt(t, p);
      hide Installed, WriteFor, Needed, WellFormed, NodeAfter;
      forall q | q in Installed(t, p)
        ensures Installed(t, p)[q] == NodeAfter(start, batch + [p], q)
      {
        InstalledNode(start, batch, t, p, q);
      }
      assert Above(p.abs, p.abs);
    } else {
      hide WriteFor, Needed, WellFormed;
    }
  }

  // ----- when a write goes through -----

  /** Nothing in `t` stands in the way of installing `p`. */
  ghost predicate Unblocked(t: Tree, p: PlannedOp) {
    Passable(t, Parent(p.abs)) && !IsDir(t, p.abs)
  }

  lemma InstalledWellFormed(t: Tree, p: PlannedOp)
    requires WellFormed(t) && Unblocked(t, p) && p.abs != [] && ProperNames(p.abs)
    ensures WellFormed(Installed(t, p))
  {
    var dir := Parent(p.abs);
    AddDirsWellFormed(t, dir);
    AddDirsAt(t, dir);
    AboveItself(t, dir);
    assert p.abs[|p.abs| - 1] in p.abs;
    FileStaysWellFormed(AddDirs(t, dir), p.abs, NewFile(p));
  }

  lemma AboveItself(t: Tree, d: Path)
    requires WellFormed(t) && Passable(t, d)
    ensures IsDir(AddDirs(t, d), d)
  {
    AddDirsAt(t, d);
    assert Above(d, d);
    PassableNode(t, d, d);
  }

  /** What stands at a path of a partly written tree. */
  lemma StandsThere(start: Tree, batch: seq<PlannedOp>, t: Tree, q: Path)
    requires Written(start, batch, t) && q in t
    ensures || (q in start && t[q] == start[q])
            || (t[q].Dir? && WriteBeneath(batch, q))
            || (exists p :: WriteTo(batch, p, q) && t[q] == NewFile(p))
  {
    match WriteFor(batch, q) {
      case Some(p) =>
        assert WriteTo(batch, p, q);
      case None =>
        if q !in start {
          var p :| p in batch && IsWrite(p) && Above(q, p.abs);
          assert q < p.abs;
        }
    }
  }

  ghost predicate WriteTo(batch: seq<PlannedOp>, p: PlannedOp, q: Path) {
    p in batch && IsWrite(p) && p.abs == q
  }

  ghost predicate WriteBeneath(batch: seq<PlannedOp>, q: Path) {
    exists p :: p in batch && IsWrite(p) && q < p.abs
  }

  /** Nothing stands in the way of the first `n` operations. */
  ghost predicate Unhindered(start: Tree, batch: seq<PlannedOp>, n: nat)
    requires n <= |batch|
  {
    forall m :: 0 <= m < n && IsWrite(batch[m]) ==> Unblocked(WritesDone(start, batch, m), batch[m])
  }

  /** In a prefix-free batch no write is blocked by the writes before it. */
  lemma PrefixFreeUnblocked(start: Tree, root: Path, batch: seq<PlannedOp>, n: nat, t: Tree)
    requires Plannable(start, root, batch) && PrefixFree(batch)
    requires n < |batch| && IsWrite(batch[n]) && Written(start, batch[..n], t)
    ensures Unblocked(t, batch[n])
  {
    hide Written, PrefixFree, WellFormed;
    var p := batch[n];
    var dir := Parent(p.abs);
    assert Recorded(start, root, p);
    forall k | 0 <= k <= |dir| && dir[..k] in t
      ensures t[dir[..k]].Dir?
    {
      assert dir[..k] == p.abs[..k];
      StandsThere(start, batch[..n], t, dir[..k]);
      NoTargetAbove(batch, n, dir[..k]);
    }
    if p.abs in t {
      StandsThere(start, batch[..n], t, p.abs);
      NoneBelow(batch, n);
    }
    assert ProperNames(dir) by { assert forall s :: s in dir ==> s in p.abs; }
  }

  lemma NoTargetAbove(batch: seq<PlannedOp>, n: nat, q: Path)
    requires PrefixFree(batch) && n < |batch| && IsWrite(batch[n]) && q < batch[n].abs
    ensures forall p :: !WriteTo(batch[..n], p, q)
  {
    assert forall p :: p in batch[..n] ==> p in batch;
  }

  lemma NoneBelow(batch: seq<PlannedOp>, n: nat)
    requires PrefixFree(batch) && Distinct(batch) && n < |batch| && IsWrite(batch[n])
    ensures !WriteBeneath(batch[..n], batch[n].abs)
  {
    assert forall p :: p in batch[..n] ==> p in batch;
  }

  /** Conversely, if every write has gone through, the batch was prefix-free. */
  lemma WrittenPrefixFree(start: Tree, batch: seq<PlannedOp>, t: Tree)
    requires Written(start, batch, t) && WellFormed(t)
    ensures PrefixFree(batch)
  {
    forall p, q | p in batch && q in batch && IsWrite(p) && IsWrite(q)
      ensures !(p.abs < q.abs)
    {
      assert Above(p.abs, p.abs) && Above(q.abs, q.abs);
      assert p.abs in t && q.abs in t;
      assert WriteFor(batch, p.abs).Some?;
      if p.abs < q.abs { NothingBelow(t, p.abs, q.abs); }
    }
  }

  lemma NothingWritten(start: Tree, root: Path, batch: seq<PlannedOp>)
    requires Plannable(start, root, batch)
    ensures WritesDone(start, batch, 0) == start && WellFormed(start) && Written(start, batch[..0], start)
  {
    assert batch[..0] == [];
    hide WellFormed, Recorded;
  }

  lemma {:induction false} WritesWellFormed(start: Tree, root: Path, batch: seq<PlannedOp>, n: nat)
    requires Plannable(start, root, batch) && n <= |batch| && Unhindered(start, batch, n)
    ensures WellFormed(WritesDone(start, batch, n))
    ensures Written(start, batch[..n], WritesDone(start, batch, n))
  {
    hide Plannable, Written, WellFormed, Installed, Unblocked;
    if n == 0 {
      NothingWritten(start, root, batch);
    } else {
      WritesWellFormed(start, root, batch, n - 1);
      WriteStep(start, root, batch, n - 1, WritesDone(start, batch, n - 1));
    }
  }

  lemma {:induction false} PrefixFreeUnhindered(start: Tree, root: Path, batch: seq<PlannedOp>, n: nat)
    requires Plannable(start, root, batch) && PrefixFree(batch) && n <= |batch|
    ensures Unhindered(start, batch, n)
  {
    hide Plannable, PrefixFree, Written, WellFormed, WritesDone, Unblocked;
    if n > 0 {
      PrefixFreeUnhindered(start, root, batch, n - 1);
      WritesWellFormed(start, root, batch, n - 1);
      if IsWrite(batch[n - 1]) {
        PrefixFreeUnblocked(start, root, batch, n - 1, WritesDone(start, batch, n - 1));
      }
    }
  }

  lemma WriteStep(start: Tree, root: Path, batch: seq<PlannedOp>, n: nat, t: Tree)
    requires Plannable(start, root, batch) && n < |batch|
    requires WellFormed(t) && Written(start, batch[..n], t)
    requires IsWrite(batch[n]) ==> Unblocked(t, batch[n])
    ensures var t' := if IsWrite(batch[n]) then Installed(t, batch[n]) else t;
            WellFormed(t') && Written(start, batch[..n + 1], t')
  {
    var p := batch[n];
    assert Recorded(start, root, p);
    assert batch[..n + 1] == batch[..n] + [p];
    if IsWrite(p) {
      InstalledWellFormed(t, p);
    }
    WrittenLonger(start, batch[..n], t, p);
  }

  // ----- deletes -----

  lemma {:induction false} DeletesDoneAt(t: Tree, batch: seq<PlannedOp>, n: nat)
    requires n <= |batch|
    ensures forall q :: q in DeletesDone(t, batch, n) <==> q in t && !Doomed(batch[..n], q)
    ensures forall q :: q in DeletesDone(t, batch, n) ==> DeletesDone(t, batch, n)[q] == t[q]
  {
    if n > 0 {
      DeletesDoneAt(t, batch, n - 1);
      DoomedLonger(batch, n);
    }
  }

  lemma DoomedLonger(batch: seq<PlannedOp>, n: nat)
    requires 0 < n <= |batch|
    ensures forall q :: Doomed(batch[..n], q) <==>
              Doomed(batch[..n - 1], q) || (Deletes(batch[n - 1]) && batch[n - 1].abs == q)
  {
    assert batch[..n] == batch[..n - 1] + [batch[n - 1]];
    assert batch[n - 1] in batch[..n];
    assert forall p :: p in batch[..n] <==> p in batch[..n - 1] || p == batch[n - 1];
  }

  lemma AncestorIsDir(t: Tree, abs: Path, q: Path)
    requires SafePlace(t, abs)
    ensures q < abs && q in t ==> t[q].Dir?
  {
    if q < abs && q in t { assert q == abs[..|q|]; }
  }

  /** A doomed path is a file the start has, and no write needs it. */
  lemma DoomedIsFree(start: Tree, root: Path, batch: seq<PlannedOp>, q: Path)
    requires Plannable(start, root, batch) && Doomed(batch, q)
    ensures q in start && start[q].File? && q != [] && !Needed(batch, q)
  {
    var d :| d in batch && Deletes(d) && d.abs == q;
    assert Recorded(start, root, d);
    if p :| p in batch && IsWrite(p) && Above(q, p.abs) {
      assert Recorded(start, root, p);
      if p.abs == q { SameTarget(batch, p, d); }
      AncestorIsDir(start, p.abs, q);
    }
  }

  /** A prefix-free batch applied to a tree it was planned for yields exactly the declared update. */
  lemma FinalDeclared(start: Tree, root: Path, batch: seq<PlannedOp>)
    requires Plannable(start, root, batch) && PrefixFree(batch)
    ensures Declared(start, batch, Final(start, batch))
  {
    var n := |batch|;
    assert batch[..n] == batch;
    PrefixFreeUnhindered(start, root, batch, n);
    WritesWellFormed(start, root, batch, n);
    var t := WritesDone(start, batch, n);
    DeletesDoneAt(t, batch, n);
    forall q | Doomed(batch, q) ensures !Needed(batch, q) {
      DoomedIsFree(start, root, batch, q);
    }
  }

  /** The declared update determines the tree, and only the set of planned operations matters. */
  lemma DeclaredUnique(start: Tree, batch: seq<PlannedOp>, batch': seq<PlannedOp>, t: Tree, t': Tree)
    requires Declared(start, batch, t) && Declared(start, batch', t')
    requires Distinct(batch) && forall p :: p in batch <==> p in batch'
    ensures t == t'
  {
    assert forall q :: Needed(batch, q) <==> Needed(batch', q);
    assert forall q :: Doomed(batch, q) <==> Doomed(batch', q);
    forall q | q in t ensures t[q] == t'[q] {
      var w, w' := WriteFor(batch, q), WriteFor(batch', q);
      if w.Some? && w'.Some? { SameTarget(batch, w.value, w'.value); }
    }
  }

  /** Applying a batch in any order gives the same tree. */
  lemma OrderIrrelevant(v: Validator, start: Tree, ops: seq<FileOp>, ops': seq<FileOp>)
    requires WellFormed(start) && IsDir(start, v.root)
    requires multiset(ops) == multiset(ops')
    requires Plan(v, start, ops).Success? && PrefixFree(Plan(v, start, ops).value)
    ensures Plan(v, start, ops').Success? && PrefixFree(Plan(v, start, ops').value)
    ensures Final(start, Plan(v, start, ops).value) == Final(start, Plan(v, start, ops').value)
  {
    hide *;
    PlanOfPermutation(v, start, ops, ops');
    PlanExact(v, start, ops);
    PlanExact(v, start, ops');
    var batch, batch' := Plan(v, start, ops).value, Plan(v, start, ops').value;
    PrefixFreeSameSet(batch, batch');
    FinalDeclared(start, v.root, batch);
    FinalDeclared(start, v.root, batch');
    DeclaredUnique(start, batch, batch', Final(start, batch), Final(start, batch'));
  }

  lemma PrefixFreeSameSet(batch: seq<PlannedOp>, batch': seq<PlannedOp>)
    requires PrefixFree(batch) && forall p :: p in batch <==> p in batch'
    ensures PrefixFree(batch')
  {
  }

  lemma PlannedIsFound(v: Validator, start: Tree, ops: seq<FileOp>, k: nat)
    requires WellFormed(start) && IsDir(start, v.root) && Plan(v, start, ops).Success?
    requires PrefixFree(Plan(v, start, ops).value)
    requires k < |Plan(v, start, ops).value| && IsWrite(Plan(v, start, ops).value[k])
    ensures var batch := Plan(v, start, ops).value;
            var t := Final(start, batch);
            && WellFormed(t)
            && EvalSymlinks(t, v.root + batch[k].rel) == Found(batch[k].abs)
            && batch[k].abs in t && t[batch[k].abs] == NewFile(batch[k])
  {
    hide *;
    PlanExact(v, start, ops);
    var batch := Plan(v, start, ops).value;
    var t := Final(start, batch);
    FinalDeclared(start, v.root, batch);
    FinalWellFormed(start, v.root, batch);
    FinalKeepsWays(start, v.root, batch, t);
    TargetInFinal(start, v.root, batch, t, k);
    PlannedAt(v, start, ops, batch, k);
    NewIsFile(batch[k]);
    PlaceOnceMade(start, t, v.root, batch[k].rel);
  }

  // ----- the update, told by the operations -----

  /** The operation has this place. */
  ghost predicate At(v: Validator, start: Tree, op: FileOp, q: Path) {
    Place(v, start, op) == Some(q)
  }

  ghost predicate Targeted(v: Validator, start: Tree, ops: seq<FileOp>, q: Path) {
    exists i :: 0 <= i < |ops| && At(v, start, ops[i], q)
  }

  /** The batch writes something beneath `q`. */
  ghost predicate WritesBeneath(v: Validator, start: Tree, ops: seq<FileOp>, q: Path) {
    exists i, abs :: 0 <= i < |ops| && ops[i].kind != OpDelete && At(v, start, ops[i], abs) && q < abs
  }

  /** What one operation is there for. A write: following root and its path leads to a file with its content, of the
      mode the file had or 644. A delete: no file is there; only a directory can be, if there was nothing and the batch
      writes beneath it. */
  ghost predicate OpDone(v: Validator, start: Tree, ops: seq<FileOp>, op: FileOp, t: Tree) {
    && Resolve(v, start, op.path).Success?
    && var (rel, abs) := (Resolve(v, start, op.path).value.rel, Resolve(v, start, op.path).value.abs);
    if op.kind != OpDelete then
      && EvalSymlinks(t, v.root + rel) == Found(abs)
      && abs in t && t[abs] == File(op.content, ModeAfter(start, abs))
    else abs in t ==> abs !in start && t[abs].Dir? && WritesBeneath(v, start, ops, abs)
  }

  /** `t` is `start` with all operations done and nothing else changed, but for the directories above new files. */
  ghost predicate Done(v: Validator, start: Tree, ops: seq<FileOp>, t: Tree) {
    && (forall i :: 0 <= i < |ops| ==> OpDone(v, start, ops, ops[i], t))
    && (forall q :: q in start && !Targeted(v, start, ops, q) ==> q in t && t[q] == start[q])
    && (forall q :: q in t && q !in start && !Targeted(v, start, ops, q) ==>
          t[q].Dir? && WritesBeneath(v, start, ops, q))
  }

  /** A prefix-free batch does what its operations say. */
  lemma FinalDone(v: Validator, start: Tree, ops: seq<FileOp>)
    requires WellFormed(start) && IsDir(start, v.root) && Plan(v, start, ops).Success?
    requires PrefixFree(Plan(v, start, ops).value)
    ensures Done(v, start, ops, Final(start, Plan(v, start, ops).value))
  {
    hide *;
    var batch := Plan(v, start, ops).value;
    var t := Final(start, batch);
    PlanExact(v, start, ops);
    PlanOrders(v, start, ops);
    FinalDeclared(start, v.root, batch);
    forall i | 0 <= i < |ops|
      ensures OpDone(v, start, ops, ops[i], t)
    {
      OneIsDone(v, start, ops, batch, i);
    }
    RestIsDone(v, start, ops, batch, t);
    DoneIf(v, start, ops, t);
  }

  /** From the raw path to the content: after a prefix-free batch, following root and the path a write was given
      leads, through whatever links there are, to its place, and there is its content, with the mode the file had. */
  lemma WrittenIsFound(v: Validator, start: Tree, ops: seq<FileOp>, k: nat)
    requires WellFormed(start) && IsDir(start, v.root) && Plan(v, start, ops).Success?
    requires PrefixFree(Plan(v, start, ops).value)
    requires k < |ops| && ops[k].kind != OpDelete
    ensures var t, place := Final(start, Plan(v, start, ops).value), Resolve(v, start, ops[k].path);
            && WellFormed(t) && place.Success?
            && EvalSymlinks(t, v.root + place.value.rel) == Found(place.value.abs)
            && place.value.abs in t
            && t[place.value.abs] == File(ops[k].content, ModeAfter(start, place.value.abs))
  {
    var batch := Plan(v, start, ops).value;
    PlanExact(v, start, ops);
    PlanOrders(v, start, ops);
    OrderMeans(v, start, ops[k], batch[k]);
    FinalDone(v, start, ops);
    PlannedIsFound(v, start, ops, k);
    assert OpDone(v, start, ops, ops[k], Final(start, batch));
    hide Plan, Final, PrefixFree, Resolve, EvalSymlinks, WellFormed, ModeAfter, Orders, Classified, Distinct;
  }

  lemma DoneIf(v: Validator, start: Tree, ops: seq<FileOp>, t: Tree)
    requires forall i :: 0 <= i < |ops| ==> OpDone(v, start, ops, ops[i], t)
    requires forall q :: q in start && !Targeted(v, start, ops, q) ==> q in t && t[q] == start[q]
    requires forall q :: q in t && q !in start && !Targeted(v, start, ops, q) ==>
               t[q].Dir? && WritesBeneath(v, start, ops, q)
    ensures Done(v, start, ops, t)
  {
    hide OpDone, Targeted, WritesBeneath;
  }

  lemma OneIsDone(v: Validator, start: Tree, ops: seq<FileOp>, batch: seq<PlannedOp>, i: nat)
    requires WellFormed(start) && IsDir(start, v.root) && Plan(v, start, ops) == Success(batch) && PrefixFree(batch)
    requires i < |ops| && |batch| == |ops| && forall j :: 0 <= j < |ops| ==> Orders(v, start, ops[j], batch[j])
    ensures OpDone(v, start, ops, ops[i], Final(start, batch))
  {
    hide *;
    PlanExact(v, start, ops);
    var p, t := batch[i], Final(start, batch);
    OrderMeans(v, start, ops[i], p);
    FinalAsAsked(start, v.root, batch, p);
    if IsWrite(p) {
      PlannedIsFound(v, start, ops, i);
      WriteIsDone(v, start, ops, ops[i], p, t);
    } else {
      AskedMeans(start, v.root, batch, t, p);
      BeneathToo(v, start, ops, batch, p.abs);
      DeleteIsDone(v, start, ops, ops[i], p, t);
    }
  }

  lemma OrderMeans(v: Validator, start: Tree, op: FileOp, p: PlannedOp)
    requires Orders(v, start, op, p)
    ensures IsWrite(p) <==> op.kind != OpDelete
  {
  }

  lemma AskedMeans(start: Tree, root: Path, batch: seq<PlannedOp>, t: Tree, p: PlannedOp)
    requires Plannable(start, root, batch) && p in batch && !IsWrite(p)
    ensures p.skipped <==> p.abs !in start
    ensures AsAsked(t, p) <==> p.abs !in t
  {
    assert Recorded(start, root, p);
  }

  lemma WriteIsDone(v: Validator, start: Tree, ops: seq<FileOp>, op: FileOp, p: PlannedOp, t: Tree)
    requires Orders(v, start, op, p) && IsWrite(p)
    requires EvalSymlinks(t, v.root + p.rel) == Found(p.abs) && p.abs in t && t[p.abs] == NewFile(p)
    ensures OpDone(v, start, ops, op, t)
  {
    hide EvalSymlinks, Resolve;
  }

  lemma DeleteIsDone(v: Validator, start: Tree, ops: seq<FileOp>, op: FileOp, p: PlannedOp, t: Tree)
    requires Orders(v, start, op, p) && op.kind == OpDelete
    requires p.abs in t ==> p.abs !in start && IsDir(t, p.abs) && WritesBeneath(v, start, ops, p.abs)
    ensures OpDone(v, start, ops, op, t)
  {
    hide Resolve, WritesBeneath;
  }

  lemma BeneathToo(v: Validator, start: Tree, ops: seq<FileOp>, batch: seq<PlannedOp>, q: Path)
    requires |batch| == |ops| && forall j :: 0 <= j < |ops| ==> Orders(v, start, ops[j], batch[j])
    ensures WriteBeneath(batch, q) <==> WritesBeneath(v, start, ops, q)
  {
    hide Resolve;
    if p :| p in batch && IsWrite(p) && q < p.abs {
      var j :| 0 <= j < |batch| && batch[j] == p;
      assert At(v, start, ops[j], p.abs);
    }
    if j, abs :| 0 <= j < |ops| && ops[j].kind != OpDelete && At(v, start, ops[j], abs) && q < abs {
      assert batch[j] in batch && IsWrite(batch[j]) && batch[j].abs == abs;
    }
  }

  lemma TargetedToo(v: Validator, start: Tree, ops: seq<FileOp>, batch: seq<PlannedOp>, q: Path)
    requires |batch| == |ops| && forall j :: 0 <= j < |ops| ==> Orders(v, start, ops[j], batch[j])
    ensures Targeted(v, start, ops, q) <==> exists p :: p in batch && p.abs == q
  {
    hide Resolve;
    if p :| p in batch && p.abs == q {
      var j :| 0 <= j < |batch| && batch[j] == p;
      assert At(v, start, ops[j], q);
    }
    if j :| 0 <= j < |ops| && At(v, start, ops[j], q) {
      assert batch[j] in batch && batch[j].abs == q;
    }
  }

  lemma RestIsDone(v: Validator, start: Tree, ops: seq<FileOp>, batch: seq<PlannedOp>, t: Tree)
    requires Declared(start, batch, t)
    requires |batch| == |ops| && forall j :: 0 <= j < |ops| ==> Orders(v, start, ops[j], batch[j])
    ensures forall q :: q in start && !Targeted(v, start, ops, q) ==> q in t && t[q] == start[q]
    ensures forall q :: q in t && q !in start && !Targeted(v, start, ops, q) ==>
              t[q].Dir? && WritesBeneath(v, start, ops, q)
  {
    hide Orders, Targeted, WritesBeneath, WriteBeneath;
    forall q | !Targeted(v, start, ops, q)
      ensures q in start ==> q in t && t[q] == start[q]
      ensures q in t && q !in start ==> t[q].Dir? && WritesBeneath(v, start, ops, q)
    {
      TargetedToo(v, start, ops, batch, q);
      BeneathToo(v, start, ops, batch, q);
      Untouched(start, batch, t, q);
    }
  }

  lemma Untouched(start: Tree, batch: seq<PlannedOp>, t: Tree, q: Path)
    requires Declared(start, batch, t) && forall p :: p in batch ==> p.abs != q
    ensures q in start ==> q in t && t[q] == start[q]
    ensures q in t && q !in start ==> t[q].Dir? && WriteBeneath(batch, q)
  {
    var w := WriteFor(batch, q);
    if q in t && q !in start {
      var p :| p in batch && IsWrite(p) && Above(q, p.abs);
      assert q < p.abs;
    }
  }

  lemma PlannedAt(v: Validator, start: Tree, ops: seq<FileOp>, batch: seq<PlannedOp>, k: nat)
    requires WellFormed(start) && IsDir(start, v.root)
    requires Classified(v, start, ops, batch) && k < |batch|
    ensures ProperNames(batch[k].rel)
    ensures ResolvedPlace(start, v.root, batch[k].rel) == Some(batch[k].abs)
  {
    var raw := ops[k].path;
    assert Classify(v, start, ops[k]) == Success(batch[k]);
    RelativeExact(v.root, raw, batch[k].rel);
    hide ResolvedPlace, Relative, TrimSpace, Lstat;
  }

  lemma {:induction false} DeletesWellFormed(start: Tree, root: Path, batch: seq<PlannedOp>, t: Tree, n: nat)
    requires Plannable(start, root, batch) && n <= |batch| && WellFormed(t)
    requires forall q :: q in start && q in t && start[q].File? ==> t[q].File?
    ensures WellFormed(DeletesDone(t, batch, n))
  {
    hide WellFormed;
    if n > 0 {
      var p := batch[n - 1];
      DeletesWellFormed(start, root, batch, t, n - 1);
      DeletesDoneAt(t, batch, n - 1);
      assert Recorded(start, root, p);
      if Deletes(p) && p.abs in DeletesDone(t, batch, n - 1) {
        FileGoneWellFormed(DeletesDone(t, batch, n - 1), p.abs);
      } else if Deletes(p) {
        assert DeletesDone(t, batch, n - 1) - {p.abs} == DeletesDone(t, batch, n - 1);
      }
    }
  }

  lemma FinalWellFormed(start: Tree, root: Path, batch: seq<PlannedOp>)
    requires Plannable(start, root, batch) && PrefixFree(batch)
    ensures WellFormed(Final(start, batch))
  {
    var t := WritesDone(start, batch, |batch|);
    assert batch[..|batch|] == batch;
    PrefixFreeUnhindered(start, root, batch, |batch|);
    WritesWellFormed(start, root, batch, |batch|);
    DeletesWellFormed(start, root, batch, t, |batch|);
  }

  /** Targets are files or absent, so the directories and links of the start stay. */
  lemma FinalKeepsWays(start: Tree, root: Path, batch: seq<PlannedOp>, t: Tree)
    requires Plannable(start, root, batch) && Declared(start, batch, t)
    ensures WaysKept(start, t)
  {
    forall q | q in start && (start[q].Dir? || start[q].Symlink?)
      ensures q in t && t[q] == start[q]
    {
      if Doomed(batch, q) { DoomedIsFree(start, root, batch, q); }
      assert forall p :: p in batch ==> Recorded(start, root, p);
      hide WellFormed, WriteFor;
    }
  }

  lemma TargetInFinal(start: Tree, root: Path, batch: seq<PlannedOp>, t: Tree, k: nat)
    requires Plannable(start, root, batch) && Declared(start, batch, t) && k < |batch| && IsWrite(batch[k])
    ensures batch[k].abs in t && t[batch[k].abs] == NewFile(batch[k])
  {
    var p := batch[k];
    assert p in batch && Above(p.abs, p.abs) && Needed(batch, p.abs);
    SameTarget(batch, WriteFor(batch, p.abs).value, p);
    hide WellFormed, Recorded;
  }

  // ----- the states in between -----

  /** The name of a staging file. */
  predicate StagingName(q: Path) {
    q != [] && ".gw-tmp-" <= q[|q| - 1]
  }

  /** A state inside the installation of `p` on `t`: some missing parents made, perhaps a staging file beside
      the target, perhaps the file in place. There is none unless the parents can be made. */
  ghost predicate Midway(t: Tree, p: PlannedOp, s: Tree) {
    && Passable(t, Parent(p.abs))
    && (forall q :: q in s ==>
          || (q in t && s[q] == t[q])
          || (q !in t && q < p.abs && s[q].Dir?)
          || (q !in t && Staging(q, p, s[q]))
          || (q == p.abs && s[q] == NewFile(p)))
    && (forall q :: q in t ==> q in s)
  }

  /** A staging file of `p` can stand at `q`. */
  ghost predicate Staging(q: Path, p: PlannedOp, node: Node) {
    StagingName(q) && Parent(q) == Parent(p.abs) && node.File?
  }

  /** The batch comes to a write beneath `q` with nothing in its way, so that `q` is made a directory if it is
      missing. For a write target this is a write before it: a later one finds a file there. */
  ghost predicate MadeFor(start: Tree, batch: seq<PlannedOp>, q: Path) {
    exists m: nat :: MadeAt(start, batch, q, m)
  }

  ghost predicate MadeAt(start: Tree, batch: seq<PlannedOp>, q: Path, m: nat) {
    m < |batch| && IsWrite(batch[m]) && q < batch[m].abs && Unhindered(start, batch, m + 1)
  }

  /** The batch comes to a write in the directory of `q`, and can make that directory, while `q` is missing. */
  ghost predicate StagedBeside(start: Tree, batch: seq<PlannedOp>, q: Path) {
    exists m: nat :: StagedAt(start, batch, q, m)
  }

  ghost predicate StagedAt(start: Tree, batch: seq<PlannedOp>, q: Path, m: nat) {
    && m < |batch| && IsWrite(batch[m]) && Parent(q) == Parent(batch[m].abs)
    && Unhindered(start, batch, m) && Passable(WritesDone(start, batch, m), Parent(batch[m].abs))
    && q !in WritesDone(start, batch, m)
  }

  ghost predicate AllWritten(batch: seq<PlannedOp>, s: Tree) {
    forall p :: p in batch && IsWrite(p) ==> p.abs in s && s[p.abs] == NewFile(p)
  }

  /** What every state of the forward phase looks like: each entry is as in the start, or a directory made
      for a write below it, or a completely written target, or a staging file of a new name beside a target; and an
      entry of the start is missing only if it is to be deleted and every write is already in place. */
  ghost predicate Shape(start: Tree, batch: seq<PlannedOp>, s: Tree) {
    && (forall q :: q in s ==>
          || Standing(start, batch, q, s[q])
          || (q !in start && StagingName(q) && s[q].File? && StagedBeside(start, batch, q)))
    && (forall q :: q in start && q !in s ==> Doomed(batch, q) && AllWritten(batch, s))
  }

  /** What is at `q` is not a staging file. */
  ghost predicate Standing(start: Tree, batch: seq<PlannedOp>, q: Path, node: Node) {
    || (q in start && node == start[q])
    || (q !in start && node.Dir? && MadeFor(start, batch, q))
    || (exists p :: WriteTo(batch, p, q) && node == NewFile(p))
  }

  ghost predicate AsBefore(start: Tree, s: Tree, q: Path) {
    (q in s <==> q in start) && (q in s ==> s[q] == start[q])
  }

  ghost predicate AsAsked(s: Tree, p: PlannedOp) {
    if IsWrite(p) then p.abs in s && s[p.abs] == NewFile(p) else p.abs !in s
  }

  /** In a forward state every batch target is in its complete old or its complete new state. There are two
      exceptions, both of a target that did not exist: one with a staging name, in whose directory the batch stages a
      write; and one above a write that the batch comes to, which is then a directory. */
  lemma TargetsAreWhole(start: Tree, root: Path, batch: seq<PlannedOp>, s: Tree, p: PlannedOp)
    requires Plannable(start, root, batch) && Shape(start, batch, s)
    requires p in batch
    ensures || AsBefore(start, s, p.abs) || AsAsked(s, p)
            || (!p.existed && StagingName(p.abs) && IsFile(s, p.abs) && StagedBeside(start, batch, p.abs))
            || (!p.existed && IsDir(s, p.abs) && MadeFor(start, batch, p.abs))
    ensures p.abs !in start && IsDir(s, p.abs) ==> MadeFor(start, batch, p.abs)
  {
    hide MadeFor, StagedBeside, NewFile;
    assert Recorded(start, root, p);
    if p.abs in s {
      if p' :| WriteTo(batch, p', p.abs) && s[p.abs] == NewFile(p') {
        SameTarget(batch, p, p');
        NewIsFile(p');
      }
    } else if p.abs in start {
      var d :| d in batch && Deletes(d) && d.abs == p.abs;
      SameTarget(batch, p, d);
    }
  }

  lemma NewIsFile(p: PlannedOp)
    ensures NewFile(p).File?
  {
  }

  predicate IsFile(t: Tree, p: Path) {
    p in t && t[p].File?
  }

  /** The write that makes a directory at a write target comes before the write of that target. */
  lemma MadeBefore(start: Tree, root: Path, batch: seq<PlannedOp>, k: nat, m: nat)
    requires Plannable(start, root, batch) && k < |batch| && IsWrite(batch[k]) && MadeAt(start, batch, batch[k].abs, m)
    ensures m < k
  {
    hide WritesDone, Plannable;
    if m > k {
      TargetIsFile(start, root, batch, k, m);
      FileBlocks(WritesDone(start, batch, m), batch[m], batch[k].abs);
    }
  }

  lemma FileBlocks(t: Tree, p: PlannedOp, q: Path)
    requires q < p.abs && IsFile(t, q)
    ensures !Unblocked(t, p)
  {
    assert Parent(p.abs)[..|q|] == q;
  }

  lemma TargetIsFile(start: Tree, root: Path, batch: seq<PlannedOp>, k: nat, m: nat)
    requires Plannable(start, root, batch) && k < m <= |batch| && IsWrite(batch[k]) && Unhindered(start, batch, m)
    ensures IsFile(WritesDone(start, batch, m), batch[k].abs)
  {
    var q := batch[k].abs;
    WritesWellFormed(start, root, batch, m);
    assert batch[..m][k] == batch[k] && Above(q, q);
    assert Needed(batch[..m], q);
    var w := WriteFor(batch[..m], q);
    assert WritesDone(start, batch, m)[q] == NodeAfter(start, batch[..m], q);
    hide WritesDone, WellFormed, Plannable, Written;
  }

  /** A batch that succeeds leaves every target as it was asked to, exactly unless it was asked to delete what is
      missing and to write beneath it: then a directory is there. */
  lemma FinalAsAsked(start: Tree, root: Path, batch: seq<PlannedOp>, p: PlannedOp)
    requires Plannable(start, root, batch) && PrefixFree(batch) && p in batch
    ensures AsAsked(Final(start, batch), p) <==> !(p.skipped && WriteBeneath(batch, p.abs))
    ensures p.skipped && WriteBeneath(batch, p.abs) ==> IsDir(Final(start, batch), p.abs)
  {
    var t := Final(start, batch);
    FinalDeclared(start, root, batch);
    assert Recorded(start, root, p);
    hide Final, WellFormed, SafePlace, PrefixFree, WriteFor;
    if IsWrite(p) {
      var k :| 0 <= k < |batch| && batch[k] == p;
      TargetInFinal(start, root, batch, t, k);
    } else if !p.skipped {
      assert Doomed(batch, p.abs);
      DoomedIsFree(start, root, batch, p.abs);
    } else {
      NeededForDelete(batch, p);
      NotWritten(batch, p);
      if Doomed(batch, p.abs) { DoomedIsFree(start, root, batch, p.abs); }
    }
  }

  lemma NeededForDelete(batch: seq<PlannedOp>, p: PlannedOp)
    requires Distinct(batch) && p in batch && !IsWrite(p)
    ensures Needed(batch, p.abs) <==> WriteBeneath(batch, p.abs)
  {
    if w :| w in batch && IsWrite(w) && Above(p.abs, w.abs) {
      if w.abs == p.abs { SameTarget(batch, p, w); }
    }
    if w :| w in batch && IsWrite(w) && p.abs < w.abs {
      assert Above(p.abs, w.abs);
    }
  }

  lemma NotWritten(batch: seq<PlannedOp>, p: PlannedOp)
    requires Distinct(batch) && p in batch && !IsWrite(p)
    ensures WriteFor(batch, p.abs).None?
  {
    var w := WriteFor(batch, p.abs);
    if w.Some? { SameTarget(batch, p, w.value); }
  }

  lemma SameTarget(batch: seq<PlannedOp>, p: PlannedOp, p': PlannedOp)
    requires Distinct(batch) && p in batch && p' in batch && p.abs == p'.abs
    ensures p == p'
  {
    var i :| 0 <= i < |batch| && batch[i] == p;
    var j :| 0 <= j < |batch| && batch[j] == p';
    assert i == j;
  }

  /** A state inside the installation of a write that the batch comes to has the shape. */
  lemma MidwayShape(start: Tree, root: Path, batch: seq<PlannedOp>, n: nat, s: Tree)
    requires Plannable(start, root, batch) && n < |batch| && IsWrite(batch[n]) && Unhindered(start, batch, n)
    requires Midway(WritesDone(start, batch, n), batch[n], s)
    ensures Shape(start, batch, s)
  {
    var p, t := batch[n], WritesDone(start, batch, n);
    WritesWellFormed(start, root, batch, n);
    assert WriteTo(batch, p, p.abs);
    forall q | q in t
      ensures Standing(start, batch, q, t[q])
    {
      StandsOrMade(start, batch, n, q);
    }
    forall q | q !in t && q < p.abs
      ensures MadeFor(start, batch, q)
    {
      MissingMade(start, batch, n, q);
    }
    forall q, node | q !in t && Staging(q, p, node)
      ensures StagedBeside(start, batch, q)
    {
      assert StagedAt(start, batch, q, n);
    }
    StartIsIn(start, batch[..n], t);
    hide WritesDone, Plannable, MadeFor, StagedBeside, Unhindered, WellFormed, NewFile, Passable, Written;
  }

  /** What a partly written tree holds, by the writes the batch has come to. */
  lemma StandsOrMade(start: Tree, batch: seq<PlannedOp>, n: nat, q: Path)
    requires n <= |batch| && Unhindered(start, batch, n) && Written(start, batch[..n], WritesDone(start, batch, n))
    requires q in WritesDone(start, batch, n)
    ensures Standing(start, batch, q, WritesDone(start, batch, n)[q])
  {
    hide WritesDone, Written, Unblocked, NewFile;
    var t := WritesDone(start, batch, n);
    StandsThere(start, batch[..n], t, q);
    if q in start && t[q] == start[q] {
    } else if t[q].Dir? && WriteBeneath(batch[..n], q) {
      var p :| p in batch[..n] && IsWrite(p) && q < p.abs;
      var m :| 0 <= m < n && batch[m] == p;
      assert MadeAt(start, batch, q, m);
      if q in start { StartStands(start, batch[..n], t, q); }
    } else {
      var p :| WriteTo(batch[..n], p, q) && t[q] == NewFile(p);
      assert WriteTo(batch, p, q);
    }
  }

  lemma StartStands(start: Tree, batch: seq<PlannedOp>, t: Tree, q: Path)
    requires Written(start, batch, t) && q in start && q in t && t[q].Dir?
    ensures t[q] == start[q]
  {
  }

  lemma MissingMade(start: Tree, batch: seq<PlannedOp>, n: nat, q: Path)
    requires n < |batch| && IsWrite(batch[n]) && Unhindered(start, batch, n) && WellFormed(WritesDone(start, batch, n))
    requires Passable(WritesDone(start, batch, n), Parent(batch[n].abs))
    requires q < batch[n].abs && q !in WritesDone(start, batch, n)
    ensures MadeFor(start, batch, q)
  {
    hide WritesDone, WellFormed;
    var t, p := WritesDone(start, batch, n), batch[n];
    NotDirWhenMissing(t, q);
    NothingBelow(t, q, p.abs);
    assert Unblocked(t, p);
    assert MadeAt(start, batch, q, n);
  }

  lemma NotDirWhenMissing(t: Tree, q: Path)
    requires q !in t
    ensures !IsDir(t, q)
  {
  }

  /** So has a state of the delete phase. */
  lemma DeletingShape(start: Tree, root: Path, batch: seq<PlannedOp>, n: nat)
    requires Plannable(start, root, batch) && n <= |batch| && PrefixFree(batch)
    ensures Shape(start, batch, DeletesDone(WritesDone(start, batch, |batch|), batch, n))
  {
    hide *;
    var t := WritesDone(start, batch, |batch|);
    var s := DeletesDone(t, batch, n);
    assert batch[..|batch|] == batch;
    PrefixFreeUnhindered(start, root, batch, |batch|);
    WritesWellFormed(start, root, batch, |batch|);
    DeletesDoneAt(t, batch, n);
    DoomedInWhole(batch, n);
    StillWritten(start, root, batch, t, s);
    forall q | q in t
      ensures Standing(start, batch, q, t[q])
    {
      StandsOrMade(start, batch, |batch|, q);
    }
    StartIsIn(start, batch, t);
    ShapeOf(start, batch, t, s);
  }

  lemma ShapeOf(start: Tree, batch: seq<PlannedOp>, t: Tree, s: Tree)
    requires forall q :: q in t ==> Standing(start, batch, q, t[q])
    requires forall q :: q in start ==> q in t
    requires forall q :: q in s ==> q in t && s[q] == t[q]
    requires forall q :: q in t && q !in s ==> Doomed(batch, q)
    requires AllWritten(batch, s)
    ensures Shape(start, batch, s)
  {
    hide Standing, AllWritten, Doomed;
  }

  lemma DoomedInWhole(batch: seq<PlannedOp>, n: nat)
    requires n <= |batch|
    ensures forall q :: Doomed(batch[..n], q) ==> Doomed(batch, q)
  {
    assert forall p :: p in batch[..n] ==> p in batch;
  }

  lemma StartIsIn(start: Tree, batch: seq<PlannedOp>, t: Tree)
    requires Written(start, batch, t)
    ensures forall q :: q in start ==> q in t
  {
  }

  lemma StillWritten(start: Tree, root: Path, batch: seq<PlannedOp>, t: Tree, s: Tree)
    requires Plannable(start, root, batch) && Written(start, batch, t)
    requires forall q :: q in t && !Doomed(batch, q) ==> q in s && s[q] == t[q]
    ensures AllWritten(batch, s)
  {
    forall p | p in batch && IsWrite(p) ensures p.abs in s && s[p.abs] == NewFile(p) {
      assert Above(p.abs, p.abs) && Needed(batch, p.abs);
      if Doomed(batch, p.abs) { DoomedIsFree(start, root, batch, p.abs); }
      SameTarget(batch, WriteFor(batch, p.abs).value, p);
    }
  }

  // ----- what a rollback leaves -----

  /** A write over a file that cannot be opened for writing again: undoing it does nothing. */
  predicate Sticks(p: PlannedOp, privileged: bool) {
    p.operation != OpDelete && p.existed && !Reopens(privileged, p.mode)
  }

  /** The start, with those of the first `n` operations that stick. */
  function Frozen(start: Tree, batch: seq<PlannedOp>, n: nat, privileged: bool): Tree
    requires n <= |batch|
  {
    if n == 0 then start
    else
      var before, p := Frozen(start, batch, n - 1, privileged), batch[n - 1];
      if Sticks(p, privileged) then before[p.abs := NewFile(p)] else before
  }

  lemma {:induction false} FrozenAt(start: Tree, root: Path, batch: seq<PlannedOp>, n: nat, privileged: bool)
    requires Plannable(start, root, batch) && n <= |batch|
    ensures var frozen := Frozen(start, batch, n, privileged);
            && (forall q :: q in frozen <==> q in start)
            && (forall q :: q in start && (forall m :: 0 <= m < n ==> batch[m].abs != q) ==> frozen[q] == start[q])
            && (forall m :: 0 <= m < n && batch[m].abs in start ==>
                  frozen[batch[m].abs] ==
                        if Sticks(batch[m], privileged) then NewFile(batch[m]) else start[batch[m].abs])
            && WellFormed(frozen)
  {
    hide Sticks, WellFormed;
    if n > 0 {
      var p := batch[n - 1];
      assert Recorded(start, root, p);
      FrozenAt(start, root, batch, n - 1, privileged);
      assert forall m :: 0 <= m < n - 1 ==> batch[m].abs != p.abs;
      if Sticks(p, privileged) {
        StuckTarget(start, root, p, privileged);
        FileReplaced(Frozen(start, batch, n - 1, privileged), p.abs, NewFile(p));
      }
    }
  }

  lemma StuckTarget(start: Tree, root: Path, p: PlannedOp, privileged: bool)
    requires Recorded(start, root, p) && Sticks(p, privileged)
    ensures p.abs in start && start[p.abs] == File(p.before, p.mode) && p.abs != []
    ensures NewFile(p) == File(p.content, p.mode) && !Reopens(privileged, p.mode)
  {
  }

  /** Nothing sticks exactly if every write over a file that cannot be reopened rewrites what it held. */
  lemma FrozenIsStart(start: Tree, root: Path, batch: seq<PlannedOp>, n: nat, privileged: bool)
    requires Plannable(start, root, batch) && n <= |batch|
    ensures Frozen(start, batch, n, privileged) == start <==>
            forall m :: 0 <= m < n && Sticks(batch[m], privileged) ==> batch[m].content == batch[m].before
  {
    hide Frozen, Sticks;
    FrozenAt(start, root, batch, n, privileged);
    var frozen := Frozen(start, batch, n, privileged);
    forall m | 0 <= m < n && Sticks(batch[m], privileged)
      ensures batch[m].abs in start
              && (frozen[batch[m].abs] == start[batch[m].abs] <==> batch[m].content == batch[m].before)
    {
      assert Recorded(start, root, batch[m]);
      StuckTarget(start, root, batch[m], privileged);
    }
    if forall m :: 0 <= m < n && Sticks(batch[m], privileged) ==> batch[m].content == batch[m].before {
      forall q | q in start
        ensures frozen[q] == start[q]
      {
        if m :| 0 <= m < n && batch[m].abs == q {
          assert frozen[batch[m].abs] == start[batch[m].abs];
        }
      }
    }
  }
}
