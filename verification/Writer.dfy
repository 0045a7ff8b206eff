/** Planning a batch: validation and classification against one state of the tree. */
module Writer {
  import opened Text
  import opened Types
  import opened FileTree
  import opened PathSafe

  const DEFAULT_MODE: nat := 0x1A4  // octal 644

  datatype PlannedOp = PlannedOp(
    rel: seq<string>, abs: Path, operation: OpKind, content: string, mode: nat,
    skipped: bool, before: string, existed: bool)
  {
    function Change(): Types.Change {
      Types.Change(RelString(rel), operation, if operation == OpDelete then 0 else |content|, skipped)
    }
  }

  /** One operation, classified on its own. */
  function Classify(v: Validator, t: Tree, op: FileOp): Result<PlannedOp, WriteError> {
    match Resolve(v, t, op.path)
    case Failure(e) => Failure(e)
    case Success(Resolved(rel, abs)) =>
      match Lstat(t, abs)
      case Found(p) =>
        if p !in t || !t[p].File? then Failure(WriteError(NotRegularFile, RelString(rel)))
        else Success(Planned(rel, abs, op, Some(t[p])))
      case NotExist => Success(Planned(rel, abs, op, None))
      case _ => Failure(WriteError(IoError, RelString(rel)))
  }

  function Planned(rel: seq<string>, abs: Path, op: FileOp, prior: Option<Node>): PlannedOp
    requires prior.Some? ==> prior.value.File?
  {
    PlannedOp(
      rel, abs,
      if op.kind == OpDelete then OpDelete else if prior.Some? then OpModify else OpCreate,
      if op.kind == OpDelete then "" else op.content,
      if prior.Some? then prior.value.mode else DEFAULT_MODE,
      op.kind == OpDelete && prior.None?,
      if prior.Some? then prior.value.data else "",
      prior.Some?)
  }

  predicate Claimed(planned: seq<PlannedOp>, abs: Path) {
    exists p :: p in planned && p.abs == abs
  }

  /** The next operation of a batch, after `planned` have been accepted. */
  function PlanNext(v: Validator, t: Tree, planned: seq<PlannedOp>, op: FileOp): Result<PlannedOp, WriteError> {
    match Resolve(v, t, op.path)
    case Failure(e) => Failure(e)
    case Success(Resolved(rel, abs)) =>
      if Claimed(planned, abs) then Failure(WriteError(DuplicateTarget, RelString(rel)))
      else Classify(v, t, op)
  }

  function Plan(v: Validator, t: Tree, ops: seq<FileOp>): Result<seq<PlannedOp>, WriteError> {
    if ops == [] then Success([])
    else
      match Plan(v, t, ops[..|ops| - 1])
      case Failure(e) => Failure(e)
      case Success(planned) =>
        match PlanNext(v, t, planned, ops[|ops| - 1])
        case Failure(e) => Failure(e)
        case Success(p) => Success(planned + [p])
  }

  // ----- what a plan guarantees -----

  ghost predicate IsWrite(p: PlannedOp) {
    p.operation != OpDelete
  }

  /** What Apply relies on: the target is strictly inside the worktree, safe to open, and recorded as
      the tree has it. */
  ghost predicate Recorded(t: Tree, root: Path, p: PlannedOp) {
    && root < p.abs
    && SafePlace(t, p.abs)
    && (p.existed <==> p.abs in t)
    && (p.existed ==> t[p.abs] == File(p.before, p.mode))
    && (!p.existed ==> p.mode == DEFAULT_MODE)
    && (p.operation == OpDelete ==> p.skipped == !p.existed)
    && (p.operation != OpDelete ==> !p.skipped && p.operation == if p.existed then OpModify else OpCreate)
  }

  ghost predicate Distinct(planned: seq<PlannedOp>) {
    forall i, j :: 0 <= i < j < |planned| ==> planned[i].abs != planned[j].abs
  }

  ghost predicate Plannable(t: Tree, root: Path, planned: seq<PlannedOp>) {
    && WellFormed(t)
    && (forall p :: p in planned ==> Recorded(t, root, p))
    && Distinct(planned)
  }

  lemma ClassifyRecords(v: Validator, t: Tree, op: FileOp)
    requires WellFormed(t) && IsDir(t, v.root)
    requires Classify(v, t, op).Success?
    ensures Recorded(t, v.root, Classify(v, t, op).value)
    ensures Classify(v, t, op).value.abs == Resolve(v, t, op.path).value.abs
    ensures Orders(v, t, op, Classify(v, t, op).value)
  {
    ClassifyOrders(v, t, op);
    ResolveSound(v, t, op.path);
    var abs := Resolve(v, t, op.path).value.abs;
    assert Lstat(t, abs) == if abs in t then Found(abs) else NotExist;
  }

  // ----- what was ordered -----

  /** The place that an operation's path resolves to. */
  function Place(v: Validator, t: Tree, op: FileOp): Option<Path> {
    match Resolve(v, t, op.path)
    case Success(r) => Some(r.abs)
    case Failure(_) => None
  }

  /** Read, write and search bits as they are written in octal. */
  function Octal(user: nat, group: nat, other: nat): nat {
    64 * user + 8 * group + other
  }

  /** The mode a file keeps, or 644 for a new one. */
  function ModeAfter(t: Tree, abs: Path): nat {
    if abs in t && t[abs].File? then t[abs].mode else Octal(6, 4, 4)
  }

  /** `p` is what the operation orders: a delete for a delete, and for anything else its content, at its place. */
  ghost predicate Orders(v: Validator, t: Tree, op: FileOp, p: PlannedOp) {
    && Resolve(v, t, op.path) == Success(Resolved(p.rel, p.abs))
    && (p.operation == OpDelete <==> op.kind == OpDelete)
    && (op.kind != OpDelete ==> p.content == op.content)
    && p.mode == ModeAfter(t, p.abs)
  }

  lemma ClassifyOrders(v: Validator, t: Tree, op: FileOp)
    requires WellFormed(t) && IsDir(t, v.root)
    requires Classify(v, t, op).Success?
    ensures Orders(v, t, op, Classify(v, t, op).value)
  {
    ResolveSound(v, t, op.path);
    var abs := Resolve(v, t, op.path).value.abs;
    assert Lstat(t, abs) == if abs in t then Found(abs) else NotExist;
    hide Resolve, Lstat, WellFormed, EvalSymlinks, LeadsTo;
  }

  /** Every planned operation is what the operation at its place in the batch orders. */
  lemma PlanOrders(v: Validator, t: Tree, ops: seq<FileOp>)
    requires WellFormed(t) && IsDir(t, v.root) && Plan(v, t, ops).Success?
    ensures var plan := Plan(v, t, ops).value;
            |plan| == |ops| && forall i :: 0 <= i < |ops| ==> Orders(v, t, ops[i], plan[i])
  {
    PlanExact(v, t, ops);
    hide Plan, Classify, Orders, WellFormed, AllAccepted, NoSharedTarget, Plannable;
    forall i | 0 <= i < |ops|
      ensures Orders(v, t, ops[i], Plan(v, t, ops).value[i])
    {
      assert Classify(v, t, ops[i]) == Success(Plan(v, t, ops).value[i]);
      ClassifyOrders(v, t, ops[i]);
    }
  }

  /** What is reported of an operation. */
  ghost predicate Reports(v: Validator, t: Tree, op: FileOp, c: Types.Change) {
    && Resolve(v, t, op.path).Success?
    && var (rel, abs) := (Resolve(v, t, op.path).value.rel, Resolve(v, t, op.path).value.abs);
    && c.path == RelString(rel)
    && c.operation == (if op.kind == OpDelete then OpDelete else if abs in t then OpModify else OpCreate)
    && c.bytes == (if op.kind == OpDelete then 0 else |op.content|)
    && (c.skipped <==> op.kind == OpDelete && abs !in t)
  }

  lemma ChangeReports(v: Validator, t: Tree, op: FileOp, p: PlannedOp)
    requires Orders(v, t, op, p) && Recorded(t, v.root, p)
    ensures Reports(v, t, op, p.Change())
  {
    hide Resolve, RelString, SafePlace;
  }

  // ----- when there is no plan -----

  /** A path that resolves is refused only if something other than a regular file is there. */
  lemma ClassifyReasons(v: Validator, t: Tree, op: FileOp)
    requires WellFormed(t) && IsDir(t, v.root)
    ensures var r := Resolve(v, t, op.path);
            && (r.Failure? ==> Classify(v, t, op) == Failure(r.error))
            && (r.Success? ==>
                  (Classify(v, t, op).Failure? <==> r.value.abs in t && !t[r.value.abs].File?))
            && (r.Success? && Classify(v, t, op).Failure? ==>
                  Classify(v, t, op).error == WriteError(NotRegularFile, RelString(r.value.rel)))
  {
    if Resolve(v, t, op.path).Success? {
      ResolveSound(v, t, op.path);
      var abs := Resolve(v, t, op.path).value.abs;
      assert Lstat(t, abs) == if abs in t then Found(abs) else NotExist;
    }
    hide Resolve, Lstat, WellFormed, EvalSymlinks, LeadsTo;
  }

  /** One of the first `n` operations has this place. */
  ghost predicate Taken(v: Validator, t: Tree, ops: seq<FileOp>, n: nat, abs: Path)
    requires n <= |ops|
  {
    exists j :: 0 <= j < n && Place(v, t, ops[j]) == Some(abs)
  }

  /** Operation `i` is the first that cannot be planned, and this is why: its own path or target, or an operation
      before it with the same place, which is noticed before the target is looked at. */
  ghost predicate FailsAt(v: Validator, t: Tree, ops: seq<FileOp>, i: nat, e: WriteError) {
    && i < |ops| && Plan(v, t, ops[..i]).Success?
    && var r := Resolve(v, t, ops[i].path);
    if r.Failure? then e == r.error
    else if Taken(v, t, ops, i, r.value.abs) then e == WriteError(DuplicateTarget, RelString(r.value.rel))
    else Classify(v, t, ops[i]) == Failure(e)
  }

  /** The first operation that cannot be planned decides the error. */
  lemma {:induction false} PlanFails(v: Validator, t: Tree, ops: seq<FileOp>, e: WriteError)
    requires WellFormed(t) && IsDir(t, v.root)
    ensures Plan(v, t, ops) == Failure(e) <==> exists i: nat :: FailsAt(v, t, ops, i, e)
  {
    if ops != [] {
      var n, init := |ops| - 1, ops[..|ops| - 1];
      PlanFails(v, t, init, e);
      FailsLonger(v, t, ops, e);
      PlanFailsOn(v, t, ops);
      hide Plan, FailsAt;
      if Plan(v, t, init).Success? {
        PlacesClaimed(v, t, init);
        FailsHere(v, t, ops, e);
        assert forall i: nat :: FailsAt(v, t, ops, i, e) ==> i == n by { FailsWithin(v, t, ops, e); }
      } else if i: nat :| FailsAt(v, t, init, i, e) {
        FailsWithin(v, t, init, e);
        assert FailsAt(v, t, ops, i, e);
      } else {
        FailsWithin(v, t, ops, e);
      }
    }
  }

  lemma PlanFailsOn(v: Validator, t: Tree, ops: seq<FileOp>)
    requires ops != []
    ensures Plan(v, t, ops[..|ops| - 1]).Failure? ==> Plan(v, t, ops) == Plan(v, t, ops[..|ops| - 1])
  {
  }

  lemma FailsWithin(v: Validator, t: Tree, ops: seq<FileOp>, e: WriteError)
    ensures forall i: nat :: FailsAt(v, t, ops, i, e) ==> i < |ops|
  {
  }

  /** Each operation of a plan has claimed the place its path resolves to. */
  lemma PlacesClaimed(v: Validator, t: Tree, ops: seq<FileOp>)
    requires WellFormed(t) && IsDir(t, v.root) && Plan(v, t, ops).Success?
    ensures forall abs :: Claimed(Plan(v, t, ops).value, abs) <==> Taken(v, t, ops, |ops|, abs)
  {
    hide Plan, Resolve, WellFormed;
    PlanOrders(v, t, ops);
    var plan := Plan(v, t, ops).value;
    forall abs
      ensures Claimed(plan, abs) <==> Taken(v, t, ops, |ops|, abs)
    {
      if p :| p in plan && p.abs == abs {
        var j :| 0 <= j < |plan| && plan[j] == p;
        assert Place(v, t, ops[j]) == Some(abs);
      }
      if j :| 0 <= j < |ops| && Place(v, t, ops[j]) == Some(abs) {
        assert plan[j] in plan && plan[j].abs == abs;
      }
    }
  }

  lemma FailsLonger(v: Validator, t: Tree, ops: seq<FileOp>, e: WriteError)
    requires ops != []
    ensures forall i :: 0 <= i < |ops| - 1 ==> (FailsAt(v, t, ops, i, e) <==> FailsAt(v, t, ops[..|ops| - 1], i, e))
    ensures Plan(v, t, ops[..|ops| - 1]).Failure? ==> !FailsAt(v, t, ops, |ops| - 1, e)
  {
    hide Plan, Resolve, Classify, Place;
    var init := ops[..|ops| - 1];
    forall i | 0 <= i < |init|
      ensures FailsAt(v, t, ops, i, e) <==> FailsAt(v, t, init, i, e)
    {
      assert init[..i] == ops[..i] && init[i] == ops[i];
      assert forall j :: 0 <= j < i ==> init[j] == ops[j];
    }
  }

  lemma FailsHere(v: Validator, t: Tree, ops: seq<FileOp>, e: WriteError)
    requires ops != [] && Plan(v, t, ops[..|ops| - 1]).Success?
    requires var init := ops[..|ops| - 1];
             forall abs :: Claimed(Plan(v, t, init).value, abs) <==> Taken(v, t, init, |init|, abs)
    ensures Plan(v, t, ops) == Failure(e) <==> FailsAt(v, t, ops, |ops| - 1, e)
  {
    hide Resolve, Classify, Place, Claimed;
    var n := |ops| - 1;
    assert forall j :: 0 <= j < n ==> ops[..n][j] == ops[j];
    assert forall abs :: Taken(v, t, ops[..n], n, abs) <==> Taken(v, t, ops, n, abs);
  }

  ghost predicate AllAccepted(v: Validator, t: Tree, ops: seq<FileOp>) {
    forall i :: 0 <= i < |ops| ==> Classify(v, t, ops[i]).Success?
  }

  ghost predicate NoSharedTarget(v: Validator, t: Tree, ops: seq<FileOp>)
    requires AllAccepted(v, t, ops)
  {
    forall i, j :: 0 <= i < j < |ops| ==> Classify(v, t, ops[i]).value.abs != Classify(v, t, ops[j]).value.abs
  }

  /** `planned` is the batch's own classifications, in batch order. */
  ghost predicate Classified(v: Validator, t: Tree, ops: seq<FileOp>, planned: seq<PlannedOp>) {
    && |planned| == |ops|
    && forall i :: 0 <= i < |ops| ==> Classify(v, t, ops[i]) == Success(planned[i])
  }

  lemma {:induction false} PlanDecides(v: Validator, t: Tree, ops: seq<FileOp>)
    requires WellFormed(t) && IsDir(t, v.root)
    ensures Plan(v, t, ops).Success? <==> AllAccepted(v, t, ops) && NoSharedTarget(v, t, ops)
    ensures Plan(v, t, ops).Success? ==> Classified(v, t, ops, Plan(v, t, ops).value)
  {
    if ops != [] {
      var n := |ops| - 1;
      PlanDecides(v, t, ops[..n]);
      PlanExtends(v, t, ops, n);
    }
  }

  lemma PlanNextIs(v: Validator, t: Tree, planned: seq<PlannedOp>, op: FileOp)
    requires WellFormed(t) && IsDir(t, v.root)
    ensures PlanNext(v, t, planned, op).Success? <==>
            Classify(v, t, op).Success? && !Claimed(planned, Classify(v, t, op).value.abs)
    ensures PlanNext(v, t, planned, op).Success? ==> PlanNext(v, t, planned, op) == Classify(v, t, op)
  {
    if Classify(v, t, op).Success? {
      ClassifyRecords(v, t, op);
    }
  }

  lemma PlanExtends(v: Validator, t: Tree, ops: seq<FileOp>, n: nat)
    requires WellFormed(t) && IsDir(t, v.root)
    requires |ops| == n + 1
    requires var init := ops[..n];
             && (Plan(v, t, init).Success? <==> AllAccepted(v, t, init) && NoSharedTarget(v, t, init))
             && (Plan(v, t, init).Success? ==> Classified(v, t, init, Plan(v, t, init).value))
    ensures Plan(v, t, ops).Success? <==> AllAccepted(v, t, ops) && NoSharedTarget(v, t, ops)
    ensures Plan(v, t, ops).Success? ==> Classified(v, t, ops, Plan(v, t, ops).value)
  {
    hide Classify, PlanNext, WellFormed;
    var init, last := ops[..n], ops[n];
    assert forall i :: 0 <= i < n ==> init[i] == ops[i];
    assert AllAccepted(v, t, ops) && NoSharedTarget(v, t, ops) ==>
             AllAccepted(v, t, init) && NoSharedTarget(v, t, init);
    if Plan(v, t, init).Success? {
      var planned := Plan(v, t, init).value;
      PlanNextIs(v, t, planned, last);
      if Classify(v, t, last).Success? {
        ClaimedBefore(v, t, init, planned, Classify(v, t, last).value.abs);
      }
    }
  }

  lemma ClaimedBefore(v: Validator, t: Tree, init: seq<FileOp>, planned: seq<PlannedOp>, abs: Path)
    requires Classified(v, t, init, planned)
    ensures Claimed(planned, abs) <==> exists i :: 0 <= i < |init| && Classify(v, t, init[i]).value.abs == abs
  {
    hide Classify;
    if i :| 0 <= i < |init| && Classify(v, t, init[i]).value.abs == abs {
      assert planned[i] in planned;
    }
  }

  /** A plan exists exactly if every operation is acceptable on its own and no two share a target; it is
      then the operations' own classifications, in batch order, and fit for Apply. */
  lemma PlanExact(v: Validator, t: Tree, ops: seq<FileOp>)
    requires WellFormed(t) && IsDir(t, v.root)
    ensures Plan(v, t, ops).Success? <==> AllAccepted(v, t, ops) && NoSharedTarget(v, t, ops)
    ensures Plan(v, t, ops).Success? ==>
              && Classified(v, t, ops, Plan(v, t, ops).value)
              && Plannable(t, v.root, Plan(v, t, ops).value)
  {
    PlanDecides(v, t, ops);
    if Plan(v, t, ops).Success? {
      var planned := Plan(v, t, ops).value;
      forall p | p in planned
        ensures Recorded(t, v.root, p)
      {
        var i :| 0 <= i < |planned| && planned[i] == p;
        ClassifyRecords(v, t, ops[i]);
      }
    }
  }

  function Without<T>(s: seq<T>, k: nat): seq<T>
    requires k < |s|
  {
    s[..k] + s[k + 1..]
  }

  lemma WithoutOne<T>(s: seq<T>, k: nat)
    requires k < |s|
    ensures multiset(Without(s, k)) == multiset(s) - multiset{s[k]}
  {
    assert s == s[..k] + [s[k]] + s[k + 1..];
  }

  lemma SamePlace<T>(s: seq<T>, s': seq<T>, x: T) returns (a: nat)
    requires multiset(s) == multiset(s') && x in s'
    ensures a < |s| && s[a] == x
  {
    assert x in multiset(s');
    assert x in multiset(s);
    a :| 0 <= a < |s| && s[a] == x;
  }

  /** Two places of a sequence are two places of any permutation of it. */
  lemma TwoPlaces<T>(s: seq<T>, s': seq<T>, i: nat, j: nat) returns (a: nat, b: nat)
    requires multiset(s) == multiset(s') && i < j < |s'|
    ensures a < |s| && b < |s| && a != b && s[a] == s'[i] && s[b] == s'[j]
  {
    a := SamePlace(s, s', s'[i]);
    var rest, rest' := Without(s, a), Without(s', i);
    assert multiset(rest) == multiset(rest') by {
      WithoutOne(s, a);
      WithoutOne(s', i);
    }
    assert s'[j] in rest' by { assert rest'[j - 1] == s'[j]; }
    var c := SamePlace(rest, rest', s'[j]);
    b := if c < a then c else c + 1;
  }

  /** Planning does not depend on the order of the batch: a permutation plans exactly if the batch does,
      and plans the same operations. */
  lemma PlanOfPermutation(v: Validator, t: Tree, ops: seq<FileOp>, ops': seq<FileOp>)
    requires WellFormed(t) && IsDir(t, v.root)
    requires multiset(ops) == multiset(ops')
    ensures Plan(v, t, ops).Success? <==> Plan(v, t, ops').Success?
    ensures Plan(v, t, ops).Success? ==>
              forall p :: p in Plan(v, t, ops).value <==> p in Plan(v, t, ops').value
  {
    if Plan(v, t, ops).Success? {
      PlanForward(v, t, ops, ops');
    }
    if Plan(v, t, ops').Success? {
      PlanForward(v, t, ops', ops);
    }
  }

  lemma PlanForward(v: Validator, t: Tree, ops: seq<FileOp>, ops': seq<FileOp>)
    requires WellFormed(t) && IsDir(t, v.root)
    requires multiset(ops) == multiset(ops')
    requires Plan(v, t, ops).Success?
    ensures Plan(v, t, ops').Success?
    ensures forall p :: p in Plan(v, t, ops').value ==> p in Plan(v, t, ops).value
  {
    PlanExact(v, t, ops);
    PlanExact(v, t, ops');
    var planned := Plan(v, t, ops).value;
    forall i | 0 <= i < |ops'|
      ensures Classify(v, t, ops'[i]).Success? && Classify(v, t, ops'[i]).value in planned
    {
      assert ops'[i] in multiset(ops');
      assert ops'[i] in multiset(ops);
      var k :| 0 <= k < |ops| && ops[k] == ops'[i];
      assert Classify(v, t, ops[k]) == Success(planned[k]);
    }
    forall i, j | 0 <= i < j < |ops'|
      ensures Classify(v, t, ops'[i]).value.abs != Classify(v, t, ops'[j]).value.abs
    {
      var a, b := TwoPlaces(ops, ops', i, j);
      if a < b {
        assert Classify(v, t, ops[a]).value.abs != Classify(v, t, ops[b]).value.abs;
      } else {
        assert Classify(v, t, ops[b]).value.abs != Classify(v, t, ops[a]).value.abs;
      }
    }
    assert AllAccepted(v, t, ops') && NoSharedTarget(v, t, ops');
  }
}
