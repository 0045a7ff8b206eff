/** Confinement of a raw path to the worktree: lexically, then through symbolic links. */
module PathSafe {
  import opened Text
  import opened Types
  import opened Paths
  import opened FileTree
  import Gitignore

  datatype Validator = Validator(
    root: Path,
    binaryExt: set<string>,
    rules: seq<Gitignore.Rule>,
    fnmatch: Gitignore.FnMatch)

  /** The canonical worktree root, or None if it is not an existing directory. `abs` is the absolute,
      cleaned worktree path. */
  function CanonicalRoot(t: Tree, abs: Path): (root: Option<Path>)
    requires WellFormed(t)
    ensures root.Some? ==> IsDir(t, root.value)
  {
    match EvalSymlinks(t, abs)
    case Found(p) => if IsDir(t, p) then Some(p) else None
    case _ => None
  }

  // ----- the lexical check -----

  function Relative(root: Path, raw: string): Result<seq<string>, WriteError> {
    var p := ParsePath(raw);
    var rel := if p.rooted then Rel(root, p.segs) else p.segs;
    if rel == [] || rel[0] == ".." then Failure(WriteError(PathTraversal, raw))
    else Success(rel)
  }

  /** Read without the tree, `raw` leads to a place strictly beneath the root, at `rel`. A relative path leads there
      from wherever it starts, so it may not climb above its start. */
  ghost predicate LexicallyInside(root: Path, raw: string, rel: seq<string>) {
    && rel != []
    && ProperNames(rel)
    && if IsRooted(raw) then Follow([], Split(raw, '/')) == root + rel
       else forall at :: Follow(at, Split(raw, '/')) == at + rel
  }

  /** The cleaned form of `raw` is root + rel, or `rel` if it is relative. */
  lemma InsideOnceClean(root: Path, raw: string, rel: seq<string>)
    ensures LexicallyInside(root, raw, rel) <==>
            rel != [] && ProperNames(rel) && ParsePath(raw).segs == if IsRooted(raw) then root + rel else rel
  {
    ParsePathCanonical(raw);
    var p := ParsePath(raw);
    assert p.rooted == IsRooted(raw);
    if IsRooted(raw) {
      var ups: nat :| CanonicalAt(p, ups);
      assert p.segs[0..] == p.segs;
      CleanFollows(raw, []);
      FollowNames([], p.segs);
      assert [] + p.segs == p.segs;
    } else if ProperNames(rel) {
      RelativeInside(raw, rel);
    }
    hide ParsePath, Follow, Split, Canonical;
  }

  lemma RelativeInside(raw: string, rel: seq<string>)
    requires !IsRooted(raw) && ProperNames(rel)
    ensures (forall at :: Follow(at, Split(raw, '/')) == at + rel) <==> ParsePath(raw).segs == rel
  {
    var p := GoPath(false, rel);
    assert p.segs[0..] == rel;
    assert CanonicalAt(p, 0);
    assert ParsePath(raw).rooted == p.rooted;
    CleanMeans(raw, p);
    hide ParsePath, Split, Follow;
    forall at ensures Follow(at, rel) == at + rel { FollowNames(at, rel); }
  }

  lemma RelIsSuffix(base: seq<string>, target: seq<string>)
    requires ProperNames(target)
    ensures var rel := Rel(base, target);
            rel != [] && rel[0] != ".." <==> base <= target && base != target
    ensures base <= target ==> Rel(base, target) == target[|base|..]
  {
    var n := CommonPrefix(base, target);
    if n == |base| {
      assert base == target[..n];
      assert Rel(base, target) == target[n..];
      if n < |target| {
        assert target[n] in target;
      }
    } else {
      assert Rel(base, target)[0] == "..";
      assert base <= target ==> n == |target|;
    }
  }

  lemma RootedRelative(root: Path, segs: seq<string>, rel: seq<string>)
    requires ProperNames(segs)
    ensures var r := Rel(root, segs);
            r == rel && r != [] && r[0] != ".." <==> rel != [] && ProperNames(rel) && segs == root + rel
  {
    RelIsSuffix(root, segs);
    if root <= segs {
      var suffix := segs[|root|..];
      assert segs == root + suffix;
      forall s | s in suffix ensures ProperName(s) { assert s in segs; }
    }
    if segs == root + rel {
      assert segs[|root|..] == rel;
    }
  }

  lemma PlainRelative(segs: seq<string>, ups: nat)
    requires CanonicalAt(GoPath(false, segs), ups)
    ensures segs != [] && segs[0] != ".." <==> segs != [] && ProperNames(segs)
  {
    if segs != [] {
      assert segs[0..] == segs;
      assert segs[0] in segs;
    }
  }

  /** The lexical check accepts exactly the paths strictly inside, with their suffix as result. */
  lemma RelativeExact(root: Path, raw: string, rel: seq<string>)
    ensures Relative(root, raw) == Success(rel) <==> LexicallyInside(root, raw, rel)
    ensures Relative(root, raw).Failure? ==> Relative(root, raw).error == WriteError(PathTraversal, raw)
  {
    InsideOnceClean(root, raw, rel);
    hide LexicallyInside;
    ParsePathCanonical(raw);
    var p := ParsePath(raw);
    var ups: nat :| CanonicalAt(p, ups);
    if p.rooted {
      assert p.segs[0..] == p.segs;
      RootedRelative(root, p.segs, rel);
    } else {
      PlainRelative(p.segs, ups);
    }
  }

  /** The path the parser cleaned is judged as the raw one was. */
  lemma RelativeOfClean(root: Path, raw: string)
    ensures Relative(root, Clean(raw)).Success? <==> Relative(root, raw).Success?
    ensures Relative(root, raw).Success? ==> Relative(root, Clean(raw)) == Relative(root, raw)
  {
    CleanIdempotent(raw);
  }

  // ----- the symlink-aware check -----

  /** p is the root or carries the prefix root + "/". For the root directory "/" that prefix is "//",
      which no clean path has. */
  predicate ContainedIn(root: Path, p: Path) {
    p == root || (root != [] && root < p)
  }

  /** The length of the longest prefix of `target`, at most n, that `Lstat` finds. */
  function DeepestExisting(t: Tree, target: Path, n: nat): (r: Option<nat>)
    requires n <= |target|
    ensures r.Some? ==> r.value <= n
  {
    match Lstat(t, target[..n])
    case Found(_) => Some(n)
    case NotExist => if n == 0 then None else DeepestExisting(t, target, n - 1)
    case _ => None
  }

  function ResolvedPlace(t: Tree, root: Path, rel: seq<string>): Option<Path> {
    var target := root + rel;
    match DeepestExisting(t, target, |target|)
    case None => None
    case Some(n) =>
      match EvalSymlinks(t, target[..n])
      case Found(resolved) =>
        if ContainedIn(root, resolved) && ContainedIn(root, resolved + target[n..])
        then Some(resolved + target[n..])
        else None
      case _ => None
  }

  /** The probing loop: climb from the target until `Lstat` succeeds, collecting the missing names
      leaf first. */
  method ClimbToExisting(t: Tree, target: Path) returns (probe: Path, missing: seq<string>, ok: bool)
    ensures ok <==> DeepestExisting(t, target, |target|).Some?
    ensures ok ==> |probe| == DeepestExisting(t, target, |target|).value && probe == target[..|probe|]
    ensures ok ==> missing == Backwards(target[|probe|..])
  {
    probe := target;
    missing := [];
    assert target[..|target|] == target;
    while true
      invariant |probe| <= |target| && probe == target[..|probe|]
      invariant missing == Backwards(target[|probe|..])
      invariant DeepestExisting(t, target, |target|) == DeepestExisting(t, target, |probe|)
      decreases |probe|
    {
      var info := Lstat(t, probe);
      if info.Found? {
        return probe, missing, true;
      }
      if !info.NotExist? {
        return probe, missing, false;
      }
      var parent := Parent(probe);
      if parent == probe {
        return probe, missing, false;
      }
      assert target[|parent|..][1..] == target[|probe|..];
      missing := missing + [probe[|probe| - 1]];
      probe := parent;
    }
  }

  /** `missing` was collected leaf first; rejoin root first. */
  method Rejoin(resolved: Path, missing: seq<string>) returns (place: Path)
    ensures place == resolved + Backwards(missing)
  {
    place := resolved;
    for i := |missing| downto 0
      invariant place == resolved + Backwards(missing[i..])
    {
      assert missing[i..][1..] == missing[i + 1..];
      place := place + [missing[i]];
    }
    assert missing[0..] == missing;
  }

  method ResolveWithin(t: Tree, root: Path, rel: seq<string>) returns (abs: Option<Path>)
    ensures abs == ResolvedPlace(t, root, rel)
  {
    var target := root + rel;
    var probe, missing, ok := ClimbToExisting(t, target);
    if !ok {
      return None;
    }
    var resolved := EvalSymlinks(t, probe);
    if !resolved.Found? || !ContainedIn(root, resolved.path) {
      return None;
    }
    BackwardsTwice(target[|probe|..]);
    var place := Rejoin(resolved.path, missing);
    return if ContainedIn(root, place) then Some(place) else None;
  }

  // ----- Resolve -----

  datatype Resolved = Resolved(rel: seq<string>, abs: Path)

  function RelString(rel: seq<string>): string {
    Join(rel, '/')
  }

  function Resolve(v: Validator, t: Tree, raw: string): Result<Resolved, WriteError> {
    if TrimSpace(raw) == "" then Failure(WriteError(PathTraversal, raw))
    else match Relative(v.root, raw)
      case Failure(e) => Failure(e)
      case Success(rel) =>
        match ResolvedPlace(t, v.root, rel)
        case None => Failure(WriteError(PathTraversal, RelString(rel)))
        case Some(abs) =>
          if ToLower(Ext(RelString(rel))) in v.binaryExt then Failure(WriteError(BinaryExtension, RelString(rel)))
          else if Gitignore.Ignored(v.fnmatch, v.rules, RelString(rel)) then
            Failure(WriteError(IgnoredByGit, RelString(rel)))
          else Success(Resolved(rel, abs))
  }

  method ResolvePath(v: Validator, t: Tree, raw: string) returns (r: Result<Resolved, WriteError>)
    ensures r == Resolve(v, t, raw)
  {
    if TrimSpace(raw) == "" {
      return Failure(WriteError(PathTraversal, raw));
    }
    var relative := Relative(v.root, raw);
    if relative.Failure? {
      return Failure(relative.error);
    }
    var rel := relative.value;
    var place := ResolveWithin(t, v.root, rel);
    if place.None? {
      return Failure(WriteError(PathTraversal, RelString(rel)));
    }
    if ToLower(Ext(RelString(rel))) in v.binaryExt {
      return Failure(WriteError(BinaryExtension, RelString(rel)));
    }
    var ignored := Gitignore.Match(v.fnmatch, v.rules, RelString(rel));
    if ignored {
      return Failure(WriteError(IgnoredByGit, RelString(rel)));
    }
    return Success(Resolved(rel, place.value));
  }

  // ----- what acceptance guarantees -----

  /** `abs` is a place one may open: its existing ancestors are directories, none of its existing
      components is a link, and looking it up in any way reaches it or finds it absent. */
  ghost predicate SafePlace(t: Tree, abs: Path) {
    && Literal(t, abs)
    && (forall n :: 0 <= n < |abs| && abs[..n] in t ==> t[abs[..n]].Dir?)
    && (forall links: nat, follow: bool ::
          Walk(t, links, [], abs, follow) == if abs in t then Found(abs) else NotExist)
  }

  lemma {:induction false} DeepestIs(t: Tree, target: Path, n: nat)
    requires n <= |target|
    ensures var d := DeepestExisting(t, target, n);
            d.Some? ==>
              && d.value <= n
              && Lstat(t, target[..d.value]).Found?
              && (d.value < n ==> Lstat(t, target[..d.value + 1]).NotExist?)
  {
    if Lstat(t, target[..n]).NotExist? && n > 0 {
      DeepestIs(t, target, n - 1);
    }
  }

  lemma SafeFromDir(t: Tree, dir: Path, names: seq<string>)
    requires WellFormed(t) && dir in t && !t[dir].Symlink? && ProperNames(names)
    requires names != [] ==> t[dir].Dir? && dir + [names[0]] !in t
    ensures SafePlace(t, dir + names)
  {
    var abs := dir + names;
    forall n | 0 <= n <= |abs| && abs[..n] in t
      ensures !t[abs[..n]].Symlink? && (n < |abs| ==> t[abs[..n]].Dir?)
    {
      if n <= |dir| {
        AncestorsAreDirs(t, dir, n);
        assert abs[..n] == dir[..n];
        assert dir[..|dir|] == dir;
      } else {
        NotBelowAbsent(t, dir + [names[0]], abs[..n]);
      }
    }
    ProperPath(t, dir);
    assert Literal(t, abs) by {
      forall s | s in abs ensures ProperName(s) {}
    }
    if abs !in t && names == [] {
      assert abs == dir;
    }
    forall links: nat, follow: bool
      ensures Walk(t, links, [], abs, follow) == if abs in t then Found(abs) else NotExist
    {
      LiteralWalk(t, links, abs, follow);
    }
  }

  lemma NotBelowAbsent(t: Tree, p: Path, q: Path)
    requires WellFormed(t) && p <= q && p !in t
    ensures q !in t
  {
    if p != q { NothingBelow(t, p, q); }
  }

  lemma {:induction false} DeepestFrom(t: Tree, target: Path, n: nat, k: nat)
    requires k <= n <= |target| && Lstat(t, target[..k]).Found?
    ensures var d := DeepestExisting(t, target, n); d.Some? ==> k <= d.value
  {
    if n > k && Lstat(t, target[..n]).NotExist? {
      DeepestFrom(t, target, n - 1, k);
    }
  }

  lemma RootIsFound(t: Tree, root: Path)
    requires WellFormed(t) && IsDir(t, root)
    ensures Lstat(t, root) == Found(root)
  {
    SafeFromDir(t, root, []);
    assert root + [] == root;
  }

  /** Below the deepest existing prefix of the target the names are missing, also in the directory
      that prefix resolves to. */
  lemma FirstMissing(t: Tree, target: Path, n: nat, dir: Path)
    requires WellFormed(t) && n < |target| && ProperName(target[n])
    requires EvalSymlinks(t, target[..n]) == Found(dir)
    requires Lstat(t, target[..n + 1]).NotExist?
    ensures IsDir(t, dir) && dir + [target[n]] !in t
    ensures EvalSymlinks(t, target).NotExist?
  {
    assert target[..n + 1] == target[..n] + [target[n]];
    WalkMoreLinks(t, KERNEL_LINKS, EVAL_LINKS, [], target[..n + 1], false);
    var left := WalkThrough(t, EVAL_LINKS, [], target[..n], [target[n]], false);
    WalkFinds(t, EVAL_LINKS, [], target[..n], true);
    var left' := WalkThrough(t, EVAL_LINKS, [], target[..n], [target[n]], true);
    WalkMissing(t, EVAL_LINKS, [], target[..n + 1], target[n + 1..]);
    assert target == target[..n + 1] + target[n + 1..];
  }

  /** The root a worktree is bound to is a directory that no link leads away from: it is its own canonical root, and
      what is looked up under it is looked up there. */
  lemma RootIsCanonical(t: Tree, abs: Path, root: Path)
    requires WellFormed(t)
    ensures CanonicalRoot(t, abs) == Some(root) <==> EvalSymlinks(t, abs) == Found(root) && IsDir(t, root)
    ensures CanonicalRoot(t, abs) == Some(root) ==> SafePlace(t, root)
    ensures IsDir(t, root) ==> CanonicalRoot(t, root) == Some(root)
  {
    if IsDir(t, root) {
      SafeFromDir(t, root, []);
      assert root + [] == root;
    }
    hide WellFormed;
  }

  /** In any later tree that has an entry at `abs`, and still has the directories and links of `t`, following `way`
      leads to `abs`. */
  ghost predicate LeadsTo(t: Tree, way: Path, abs: Path) {
    forall t': Tree :: WellFormed(t') && WaysKept(t, t') && abs in t' && !t'[abs].Symlink? ==>
      EvalSymlinks(t', way) == Found(abs)
  }

  lemma PlaceOnceMade(t: Tree, t': Tree, root: Path, rel: seq<string>)
    requires WellFormed(t) && IsDir(t, root) && ProperNames(rel)
    requires ResolvedPlace(t, root, rel).Some?
    requires WellFormed(t') && WaysKept(t, t')
    requires var abs := ResolvedPlace(t, root, rel).value; abs in t' && !t'[abs].Symlink?
    ensures EvalSymlinks(t', root + rel) == Found(ResolvedPlace(t, root, rel).value)
  {
    var target, abs := root + rel, ResolvedPlace(t, root, rel).value;
    var n := DeepestExisting(t, target, |target|).value;
    var dir := EvalSymlinks(t, target[..n]).path;
    DeepestIs(t, target, |target|);
    WalkFinds(t, EVAL_LINKS, [], target[..n], true);
    if n < |target| {
      NamesBelow(t, root, rel, n);
      FirstMissing(t, target, n, dir);
      WalkKept(t, t', EVAL_LINKS, [], target[..n]);
      var left := WalkThrough(t', EVAL_LINKS, [], target[..n], target[n..], true);
      assert target[..n] + target[n..] == target;
      LiteralThere(t', abs);
      assert abs[..|dir|] == dir && abs[|dir|..] == target[n..];
      LiteralWalkFrom(t', left, abs, |dir|, true);
    } else {
      assert target[..n] == target && dir + target[n..] == dir;
      WalkKept(t, t', EVAL_LINKS, [], target);
    }
  }

  /** The names below the deepest existing prefix are names of `rel`. */
  lemma NamesBelow(t: Tree, root: Path, rel: seq<string>, n: nat)
    requires WellFormed(t) && IsDir(t, root) && ProperNames(rel)
    requires DeepestExisting(t, root + rel, |root + rel|) == Some(n)
    ensures |root| <= n <= |root + rel| && ProperNames((root + rel)[n..])
    ensures n < |root + rel| ==> ProperName((root + rel)[n])
  {
    var target := root + rel;
    DeepestIs(t, target, |target|);
    RootIsFound(t, root);
    assert target[..|root|] == root;
    DeepestFrom(t, target, |target|, |root|);
    assert target[n..] == rel[n - |root|..];
    forall s | s in target[n..] ensures ProperName(s) {
      assert s in rel;
    }
    if n < |target| { assert target[n] in target[n..]; }
  }

  lemma LiteralThere(t: Tree, p: Path)
    requires WellFormed(t) && p in t && !t[p].Symlink?
    ensures Literal(t, p)
  {
    ProperPath(t, p);
    forall n | 0 <= n <= |p| && p[..n] in t
      ensures !t[p[..n]].Symlink?
    {
      AncestorsAreDirs(t, p, n);
      assert p[..|p|] == p;
    }
  }

  lemma PlaceLeads(t: Tree, root: Path, rel: seq<string>)
    requires WellFormed(t) && IsDir(t, root) && ProperNames(rel)
    requires ResolvedPlace(t, root, rel).Some?
    ensures LeadsTo(t, root + rel, ResolvedPlace(t, root, rel).value)
  {
    var abs := ResolvedPlace(t, root, rel).value;
    forall t': Tree | WellFormed(t') && WaysKept(t, t') && abs in t' && !t'[abs].Symlink?
      ensures EvalSymlinks(t', root + rel) == Found(abs)
    {
      PlaceOnceMade(t, t', root, rel);
    }
    hide ResolvedPlace, EvalSymlinks, WellFormed;
  }

  /** Containment is sound for every tree with links: an accepted path is the root itself or lies
      beneath it, it is safe to open, and it names exactly what root + rel names, now and once a file is there. */
  lemma PlaceSound(t: Tree, root: Path, rel: seq<string>)
    requires WellFormed(t) && IsDir(t, root) && ProperNames(rel)
    requires ResolvedPlace(t, root, rel).Some?
    ensures var abs := ResolvedPlace(t, root, rel).value;
            && ContainedIn(root, abs) && root <= abs
            && SafePlace(t, abs)
            && EvalSymlinks(t, root + rel) == EvalSymlinks(t, abs)
            && LeadsTo(t, root + rel, abs)
  {
    PlaceLeads(t, root, rel);
    hide LeadsTo;
    var target := root + rel;
    var n := DeepestExisting(t, target, |target|).value;
    DeepestIs(t, target, |target|);
    var dir := EvalSymlinks(t, target[..n]).path;
    WalkFinds(t, EVAL_LINKS, [], target[..n], true);
    if n < |target| {
      NamesBelow(t, root, rel, n);
      FirstMissing(t, target, n, dir);
      assert target[n..][0] == target[n];
      SafeFromDir(t, dir, target[n..]);
      NotBelowAbsent(t, dir + [target[n]], dir + target[n..]);
    } else {
      assert target[..n] == target;
      SafeFromDir(t, dir, []);
      assert dir + [] == dir && dir + target[n..] == dir;
    }
  }

  /** An accepted path is the root itself exactly if the raw path resolves to the root through links.
      Otherwise it lies strictly beneath. */
  lemma PlaceIsRootWhen(t: Tree, root: Path, rel: seq<string>)
    requires WellFormed(t) && IsDir(t, root) && ProperNames(rel)
    requires ResolvedPlace(t, root, rel).Some?
    ensures ResolvedPlace(t, root, rel).value == root <==> EvalSymlinks(t, root + rel) == Found(root)
  {
    PlaceSound(t, root, rel);
    var abs := ResolvedPlace(t, root, rel).value;
    SafeFromDir(t, root, []);
    assert root + [] == root;
  }

  /** The case exists: a link to "." in the worktree is accepted, with the root as its place. */
  lemma LinkToRootAccepted()
    ensures var t: Tree := map[[] := Dir, ["w"] := Dir, ["w", "l"] := Symlink(false, ["."])];
            ResolvedPlace(t, ["w"], ["l"]) == Some(["w"])
  {
    var t: Tree := map[[] := Dir, ["w"] := Dir, ["w", "l"] := Symlink(false, ["."])];
    var target := ["w"] + ["l"];
    assert target == ["w", "l"] && target[..2] == target && target[1..] == ["l"] && [] + ["w"] == ["w"];
    assert ["."] + target[1..][1..] == ["."];
    assert Walk(t, KERNEL_LINKS, ["w"], ["l"], false) == Found(["w", "l"]);
    assert Walk(t, EVAL_LINKS - 1, ["w"], ["."], true) == Found(["w"]);
    assert Walk(t, EVAL_LINKS, ["w"], ["l"], true) == Found(["w"]);
    assert ["w"] + target[2..] == ["w"];
  }

  lemma {:induction false} DeepestOfPrefix(t: Tree, target: Path, target': Path, n: nat)
    requires n <= |target| && n <= |target'| && target[..n] == target'[..n]
    ensures DeepestExisting(t, target, n) == DeepestExisting(t, target', n)
  {
    if n > 0 {
      assert target[..n - 1] == target[..n][..n - 1] && target'[..n - 1] == target'[..n][..n - 1];
      DeepestOfPrefix(t, target, target', n - 1);
    }
  }

  /** What exists is accepted exactly if following all its links leads into the worktree, and that is its place. */
  lemma PlaceOfExisting(t: Tree, root: Path, rel: seq<string>, abs: Path)
    requires Lstat(t, root + rel).Found?
    ensures ResolvedPlace(t, root, rel) == Some(abs) <==>
            EvalSymlinks(t, root + rel) == Found(abs) && (abs == root || (root != [] && root < abs))
  {
    var target := root + rel;
    assert target[..|target|] == target;
    if EvalSymlinks(t, target).Found? {
      assert EvalSymlinks(t, target).path + target[|target|..] == EvalSymlinks(t, target).path;
    }
    hide Lstat, EvalSymlinks;
  }

  /** What is missing is accepted exactly if its parent is, at its name below the parent's place. */
  lemma PlaceOfMissing(t: Tree, root: Path, rel: seq<string>, name: string, abs: Path)
    requires WellFormed(t) && IsDir(t, root) && Lstat(t, root + (rel + [name])).NotExist?
    ensures ResolvedPlace(t, root, rel + [name]) == Some(abs) <==>
            root != [] && ResolvedPlace(t, root, rel).Some? && abs == ResolvedPlace(t, root, rel).value + [name]
  {
    var target, longer := root + rel, root + (rel + [name]);
    var n := |target|;
    RootIsFound(t, root);
    assert longer == target + [name];
    assert longer[..n + 1] == longer && longer[..n] == target[..n];
    DeepestOfPrefix(t, target, longer, n);
    var d := DeepestExisting(t, target, n);
    assert d == DeepestExisting(t, longer, n + 1);
    if d.Some? {
      assert longer[..d.value] == target[..d.value] && longer[d.value..] == target[d.value..] + [name];
      if EvalSymlinks(t, target[..d.value]).Found? {
        var resolved := EvalSymlinks(t, target[..d.value]).path;
        assert resolved + longer[d.value..] == (resolved + target[d.value..]) + [name];
        assert (resolved + target[d.value..]) + [name] != [];
      }
    }
    hide Lstat, EvalSymlinks, DeepestExisting, WellFormed;
  }

  /** What cannot be inspected is rejected. */
  lemma PlaceOfUninspectable(t: Tree, root: Path, rel: seq<string>)
    requires !Lstat(t, root + rel).Found? && !Lstat(t, root + rel).NotExist?
    ensures ResolvedPlace(t, root, rel).None?
  {
    assert (root + rel)[..|root + rel|] == root + rel;
    hide Lstat;
  }

  /** Without links, containment accepts exactly the paths whose existing ancestors are directories
      (for a worktree other than "/"), and the place is root + rel. */
  lemma PlaceWithoutLinks(t: Tree, root: Path, rel: seq<string>)
    requires WellFormed(t) && IsDir(t, root) && ProperNames(rel) && rel != []
    requires forall p :: p in t ==> !t[p].Symlink?
    ensures ResolvedPlace(t, root, rel) ==
            if root != [] && forall n :: 0 <= n < |root + rel| && (root + rel)[..n] in t ==> t[(root + rel)[..n]].Dir?
            then Some(root + rel) else None
  {
    var target := root + rel;
    ProperPath(t, root);
    var n := LongestPrefix(t, target, |target|);
    forall k | 0 <= k <= |target|
      ensures Lstat(t, target[..k]) == Look(t, target[..k])
    {
      LiteralPrefix(t, target, k);
      LiteralWalk(t, KERNEL_LINKS, target[..k], false);
    }
    LiteralPrefix(t, target, n);
    LiteralWalk(t, EVAL_LINKS, target[..n], true);
    if n == |target| || t[target[..n]].Dir? {
      forall k | 0 <= k < |target| && target[..k] in t
        ensures t[target[..k]].Dir?
      {
        if k < n { AncestorsAreDirs(t, target[..n], k); assert target[..n][..k] == target[..k]; }
      }
      DeepestIsLongest(t, target, |target|, n);
      assert target[..n] + target[n..] == target;
      RootWithin(t, root, rel, n);
    } else {
      DeepestIsNone(t, target, |target|, n);
    }
  }

  lemma {:induction false} LongestPrefix(t: Tree, target: Path, k: nat) returns (n: nat)
    requires WellFormed(t) && k <= |target|
    ensures n <= k && target[..n] in t && forall i :: n < i <= k ==> target[..i] !in t
  {
    n := k;
    while target[..n] !in t
      invariant n <= k && forall i :: n < i <= k ==> target[..i] !in t
      decreases n
    {
      assert target[..0] == [];
      n := n - 1;
    }
  }

  lemma LiteralPrefix(t: Tree, target: Path, k: nat)
    requires k <= |target| && ProperNames(target) && forall p :: p in t ==> !t[p].Symlink?
    ensures Literal(t, target[..k])
  {
  }

  lemma {:induction false} DeepestIsLongest(t: Tree, target: Path, k: nat, n: nat)
    requires WellFormed(t) && n <= k <= |target| && target[..n] in t
    requires forall i :: n < i <= k ==> target[..i] !in t
    requires forall i :: 0 <= i < k && target[..i] in t ==> t[target[..i]].Dir?
    requires forall i :: 0 <= i <= k ==> Lstat(t, target[..i]) == Look(t, target[..i])
    ensures DeepestExisting(t, target, k) == Some(n)
  {
    if k > n {
      forall i | 0 <= i < k && target[..k][..i] in t
        ensures t[target[..k][..i]].Dir?
      {
        assert target[..k][..i] == target[..i];
      }
      DeepestIsLongest(t, target, k - 1, n);
    }
  }

  lemma DeepestIsNone(t: Tree, target: Path, k: nat, n: nat)
    requires n < k <= |target| && target[..n] in t && !t[target[..n]].Dir?
    requires forall i :: n < i <= k ==> target[..i] !in t
    requires forall i :: 0 <= i <= k ==> Lstat(t, target[..i]) == Look(t, target[..i])
    ensures DeepestExisting(t, target, k).None?
  {
    assert target[..k][..n] == target[..n];
  }

  lemma RootWithin(t: Tree, root: Path, rel: seq<string>, n: nat)
    requires WellFormed(t) && IsDir(t, root)
    requires n <= |root + rel| && forall i :: n < i <= |root + rel| ==> (root + rel)[..i] !in t
    ensures ContainedIn(root, (root + rel)[..n]) <==> n == |root| || root != []
    ensures rel != [] ==> (ContainedIn(root, root + rel) <==> root != [])
  {
    assert (root + rel)[..|root|] == root;
    assert |root| <= n;
  }

  ghost predicate Admissible(v: Validator, t: Tree, raw: string, rel: seq<string>) {
    && !Blank(raw)
    && LexicallyInside(v.root, raw, rel)
    && ResolvedPlace(t, v.root, rel).Some?
    && ToLower(Ext(RelString(rel))) !in v.binaryExt
    && !Gitignore.Ignored(v.fnmatch, v.rules, RelString(rel))
  }

  /** Resolve, end to end. It accepts exactly the admissible paths, and what it returns for one is
      contained, safe to open, and the same file, now and once it is there. */
  lemma ResolveSound(v: Validator, t: Tree, raw: string)
    requires WellFormed(t) && IsDir(t, v.root)
    ensures var r := Resolve(v, t, raw);
            && (r.Success? <==> exists rel :: Admissible(v, t, raw, rel))
            && (r.Success? ==>
              && Admissible(v, t, raw, r.value.rel)
              && ContainedIn(v.root, r.value.abs)
              && SafePlace(t, r.value.abs)
              && EvalSymlinks(t, v.root + r.value.rel) == EvalSymlinks(t, r.value.abs)
              && LeadsTo(t, v.root + r.value.rel, r.value.abs))
  {
    forall rel ensures LexicallyInside(v.root, raw, rel) <==> Relative(v.root, raw) == Success(rel) {
      RelativeExact(v.root, raw, rel);
    }
    BlankTrims(raw);
    hide LeadsTo, LexicallyInside, Blank;
    if Resolve(v, t, raw).Success? {
      PlaceSound(t, v.root, Relative(v.root, raw).value);
      assert Admissible(v, t, raw, Relative(v.root, raw).value);
    }
  }

  lemma BlankTrims(raw: string)
    ensures TrimSpace(raw) == "" <==> Blank(raw)
  {
    TrimSpaceExact(raw, "");
    if Blank(raw) {
      assert PaddedBy(raw, "", raw, "");
    }
    if before, after :| PaddedBy(raw, "", before, after) {
      assert raw == before + after;
    }
    hide TrimSpace;
  }

  /** Why a path is rejected: blank or lexically outside, then not contained, then a binary extension, then ignored.
      The first reason counts, and it names the path as far as it was understood. */
  lemma ResolveReasons(v: Validator, t: Tree, raw: string, rel: seq<string>)
    ensures Blank(raw) || (forall r :: !LexicallyInside(v.root, raw, r)) ==>
              Resolve(v, t, raw) == Failure(WriteError(PathTraversal, raw))
    ensures !Blank(raw) && LexicallyInside(v.root, raw, rel) ==>
              var place := ResolvedPlace(t, v.root, rel);
              var binary := ToLower(Ext(RelString(rel))) in v.binaryExt;
              var ignored := Gitignore.Ignored(v.fnmatch, v.rules, RelString(rel));
              && (place.None? ==> Resolve(v, t, raw) == Failure(WriteError(PathTraversal, RelString(rel))))
              && (place.Some? && binary ==> Resolve(v, t, raw) == Failure(WriteError(BinaryExtension, RelString(rel))))
              && (place.Some? && !binary && ignored ==>
                    Resolve(v, t, raw) == Failure(WriteError(IgnoredByGit, RelString(rel))))
  {
    BlankTrims(raw);
    RelativeExact(v.root, raw, rel);
    if Relative(v.root, raw).Success? {
      RelativeExact(v.root, raw, Relative(v.root, raw).value);
    }
    hide Relative, LexicallyInside, ResolvedPlace, Blank, TrimSpace, RelString, Ext, ToLower, Gitignore.Ignored;
  }

  /** A relative path is spelled with single slashes between its segments. */
  lemma RelSpelled(rel: seq<string>)
    requires rel != [] && ProperNames(rel)
    ensures Split(RelString(rel), '/') == rel
  {
    SplitOfJoin(rel, '/');
  }
}
