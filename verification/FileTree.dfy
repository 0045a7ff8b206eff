/** A file system: absolute, segment-wise paths to nodes, with symbolic links. */
module FileTree {
  import opened Text
  import opened Paths

  type Path = seq<string>

  /** `mode` is the nine permission bits; the set-id and sticky bits live outside the tree. */
  datatype Node =
    | File(data: string, mode: nat)
    | Dir
    | Symlink(rooted: bool, target: seq<string>)
    | Device

  type Tree = map<Path, Node>

  predicate IsDir(t: Tree, p: Path) {
    p in t && t[p].Dir?
  }

  predicate Placed(t: Tree, p: Path) {
    p != [] ==> IsDir(t, Parent(p)) && ProperName(p[|p| - 1])
  }

  /** Every entry but the root lies in a directory and has a proper name. */
  ghost predicate WellFormed(t: Tree) {
    IsDir(t, []) && forall p {:trigger Placed(t, p)} :: p in t ==> Placed(t, p)
  }

  lemma {:induction false} AncestorsAreDirs(t: Tree, p: Path, n: nat)
    requires WellFormed(t) && p in t && n <= |p|
    ensures p[..n] in t && (n < |p| ==> t[p[..n]].Dir?)
    decreases |p| - n
  {
    if n < |p| {
      AncestorsAreDirs(t, p, n + 1);
      assert Placed(t, p[..n + 1]);
      assert Parent(p[..n + 1]) == p[..n];
    } else {
      assert p[..n] == p;
    }
  }

  lemma NothingBelow(t: Tree, p: Path, q: Path)
    requires WellFormed(t) && p < q && !IsDir(t, p)
    ensures q !in t
  {
    assert q[..|p|] == p;
    if q in t {
      AncestorsAreDirs(t, q, |p|);
    }
  }

  lemma {:induction false} ProperPath(t: Tree, p: Path)
    requires WellFormed(t) && p in t
    ensures ProperNames(p)
  {
    if p != [] {
      assert Placed(t, p);
      ProperPath(t, Parent(p));
      assert p == Parent(p) + [p[|p| - 1]];
    }
  }

  // ----- name resolution -----

  datatype Outcome = Found(path: Path) | NotExist | NotDir | Loop

  /** Links the kernel follows in one lookup, and links `filepath.EvalSymlinks` follows. */
  const KERNEL_LINKS: nat := 40
  const EVAL_LINKS: nat := 255

  /** Resolves `rest` from the directory `at`. `links` bounds the symbolic links followed;
      a link in the last place is followed only when `follow` is set. */
  function Walk(t: Tree, links: nat, at: Path, rest: seq<string>, follow: bool): Outcome
    decreases links, |rest|
  {
    if rest == [] then Found(at)
    else if rest[0] == "" || rest[0] == "." then Walk(t, links, at, rest[1..], follow)
    else if rest[0] == ".." then Walk(t, links, Parent(at), rest[1..], follow)
    else
      var next := at + [rest[0]];
      if next !in t then NotExist
      else match t[next]
        case Dir => Walk(t, links, next, rest[1..], follow)
        case Symlink(rooted, target) =>
          if |rest| == 1 && !follow then Found(next)
          else if links == 0 then Loop
          else Walk(t, links - 1, if rooted then [] else at, target + rest[1..], follow)
        case _ => if |rest| == 1 then Found(next) else NotDir
  }

  /** `os.Lstat`: resolves every component but follows no link in the last place. */
  function Lstat(t: Tree, p: Path): Outcome {
    Walk(t, KERNEL_LINKS, [], p, false)
  }

  /** `filepath.EvalSymlinks`: the path with every link resolved. */
  function EvalSymlinks(t: Tree, p: Path): Outcome {
    Walk(t, EVAL_LINKS, [], p, true)
  }

  /** A chain of `n` links at the root, each to the next, and an entry that is no link at its end. */
  ghost predicate Chained(t: Tree, name: nat -> string, n: nat) {
    && (forall i: nat :: i <= n ==> ProperName(name(i)) && [name(i)] in t)
    && (forall i: nat :: i < n ==> t[[name(i)]] == Symlink(false, [name(i + 1)]))
    && !t[[name(n)]].Symlink?
  }

  lemma {:induction false} WalkChain(t: Tree, name: nat -> string, n: nat, i: nat, links: nat, rest: seq<string>,
                                     follow: bool)
    requires Chained(t, name, n) && i <= n && (rest != [] || follow)
    ensures Walk(t, links, [], [name(i)] + rest, follow) ==
            if n - i <= links then Walk(t, links - (n - i), [], [name(n)] + rest, follow) else Loop
    decreases n - i
  {
    if i < n {
      var segs := [name(i)] + rest;
      assert segs[0] == name(i) && segs[1..] == rest && [] + [segs[0]] == [name(i)];
      assert Walk(t, links, [], segs, follow) ==
               if links == 0 then Loop else Walk(t, links - 1, [], [name(i + 1)] + rest, follow);
      if links > 0 {
        WalkChain(t, name, n, i + 1, links - 1, rest, follow);
      }
    }
  }

  /** `EvalSymlinks` follows 255 links and no more; a lookup follows 40, whatever comes after them. */
  lemma ChainFollowed(t: Tree, name: nat -> string, n: nat, leaf: string)
    requires Chained(t, name, n) && ProperName(leaf)
    ensures EvalSymlinks(t, [name(0)]) == if n <= 255 then Found([name(n)]) else Loop
    ensures t[[name(n)]].Dir? && [name(n), leaf] in t && !t[[name(n), leaf]].Dir? ==>
              Lstat(t, [name(0), leaf]) == if n <= 40 then Found([name(n), leaf]) else Loop
  {
    WalkChain(t, name, n, 0, 255, [], true);
    WalkChain(t, name, n, 0, 40, [leaf], false);
    assert [name(0)] + [] == [name(0)] && [name(n)] + [] == [name(n)];
    assert [name(0)] + [leaf] == [name(0), leaf] && [name(n)] + [leaf] == [name(n), leaf];
    assert [] + [name(n)] == [name(n)];
    assert [name(n), leaf][1..] == [leaf];
  }

  /** What a walk finds is there, and a followed walk never ends on a link. */
  lemma {:induction false} WalkFinds(t: Tree, links: nat, at: Path, rest: seq<string>, follow: bool)
    requires WellFormed(t) && IsDir(t, at)
    ensures var w := Walk(t, links, at, rest, follow);
            w.Found? ==> w.path in t && (t[w.path].Symlink? ==> !follow)
    decreases links, |rest|
  {
    if rest == [] {
    } else if rest[0] == "" || rest[0] == "." {
      WalkFinds(t, links, at, rest[1..], follow);
    } else if rest[0] == ".." {
      assert Placed(t, at);
      WalkFinds(t, links, Parent(at), rest[1..], follow);
    } else {
      var next := at + [rest[0]];
      if next in t && t[next].Dir? {
        WalkFinds(t, links, next, rest[1..], follow);
      } else if next in t && t[next].Symlink? && !(|rest| == 1 && !follow) && links > 0 {
        WalkFinds(t, links - 1, if t[next].rooted then [] else at, t[next].target + rest[1..], follow);
      }
    }
  }

  /** A larger link budget changes nothing once the walk fits the smaller one. */
  lemma {:induction false} WalkMoreLinks(t: Tree, links: nat, more: nat, at: Path, rest: seq<string>, follow: bool)
    requires links <= more
    requires !Walk(t, links, at, rest, follow).Loop?
    ensures Walk(t, more, at, rest, follow) == Walk(t, links, at, rest, follow)
    decreases links, |rest|
  {
    if rest == [] {
    } else if rest[0] == "" || rest[0] == "." {
      WalkMoreLinks(t, links, more, at, rest[1..], follow);
    } else if rest[0] == ".." {
      WalkMoreLinks(t, links, more, Parent(at), rest[1..], follow);
    } else {
      var next := at + [rest[0]];
      if next in t && t[next].Dir? {
        WalkMoreLinks(t, links, more, next, rest[1..], follow);
      } else if next in t && t[next].Symlink? && !(|rest| == 1 && !follow) {
        WalkMoreLinks(t, links - 1, more - 1, if t[next].rooted then [] else at, t[next].target + rest[1..], follow);
      }
    }
  }

  lemma Associates(a: Path, b: Path, c: Path)
    ensures a + (b + c) == (a + b) + c
  {
  }

  lemma ParentIsDir(t: Tree, at: Path)
    requires WellFormed(t) && IsDir(t, at)
    ensures IsDir(t, Parent(at)) && IsDir(t, [])
  {
    assert Placed(t, at);
  }

  /** The walk of a longer path goes on from where its followed prefix ends, if that is a directory. */
  lemma {:induction false} WalkThrough(t: Tree, links: nat, at: Path, prefix: seq<string>, more: seq<string>,
                                       follow: bool)
    returns (left: nat)
    requires WellFormed(t) && IsDir(t, at) && more != []
    requires Walk(t, links, at, prefix, true).Found?
    ensures left <= links
    ensures Walk(t, links, at, prefix + more, follow) ==
            if IsDir(t, Walk(t, links, at, prefix, true).path)
            then Walk(t, left, Walk(t, links, at, prefix, true).path, more, follow)
            else NotDir
    decreases links, |prefix|
  {
    hide WellFormed;
    ParentIsDir(t, at);
    var rest := prefix + more;
    if prefix == [] {
      assert rest == more;
      left := links;
    } else {
      assert rest[1..] == prefix[1..] + more;
      if prefix[0] == "" || prefix[0] == "." {
        left := WalkThrough(t, links, at, prefix[1..], more, follow);
      } else if prefix[0] == ".." {
        left := WalkThrough(t, links, Parent(at), prefix[1..], more, follow);
      } else {
        var next := at + [prefix[0]];
        if t[next].Dir? {
          left := WalkThrough(t, links, next, prefix[1..], more, follow);
        } else if t[next].Symlink? {
          var dir := if t[next].rooted then [] else at;
          Associates(t[next].target, prefix[1..], more);
          left := WalkThrough(t, links - 1, dir, t[next].target + prefix[1..], more, follow);
        } else {
          left := links;
        }
      }
    }
  }

  /** Every directory and every link of `t` is in `t'` as well. */
  ghost predicate WaysKept(t: Tree, t': Tree) {
    forall q :: q in t && (t[q].Dir? || t[q].Symlink?) ==> q in t' && t'[q] == t[q]
  }

  /** A walk leads to the same place as long as its ways are kept. */
  lemma {:induction false} WalkKept(t: Tree, t': Tree, links: nat, at: Path, rest: seq<string>)
    requires WellFormed(t) && IsDir(t, at) && WaysKept(t, t')
    requires var w := Walk(t, links, at, rest, true); w.Found? && w.path in t' && !t'[w.path].Symlink?
    ensures Walk(t', links, at, rest, true) == Walk(t, links, at, rest, true)
    decreases links, |rest|
  {
    if rest == [] {
    } else if rest[0] == "" || rest[0] == "." {
      WalkKept(t, t', links, at, rest[1..]);
    } else if rest[0] == ".." {
      assert Placed(t, at);
      WalkKept(t, t', links, Parent(at), rest[1..]);
    } else {
      var next := at + [rest[0]];
      if t[next].Dir? {
        WalkKept(t, t', links, next, rest[1..]);
      } else if t[next].Symlink? {
        WalkKept(t, t', links - 1, if t[next].rooted then [] else at, t[next].target + rest[1..]);
      } else {
        assert rest[1..] == [];
      }
    }
  }

  /** What is missing below a missing entry is missing too. */
  lemma {:induction false} WalkMissing(t: Tree, links: nat, at: Path, rest: seq<string>, more: seq<string>)
    requires Walk(t, links, at, rest, true).NotExist?
    ensures Walk(t, links, at, rest + more, true).NotExist?
    decreases links, |rest|
  {
    assert (rest + more)[1..] == rest[1..] + more;
    if rest[0] == "" || rest[0] == "." {
      WalkMissing(t, links, at, rest[1..], more);
    } else if rest[0] == ".." {
      WalkMissing(t, links, Parent(at), rest[1..], more);
    } else {
      var next := at + [rest[0]];
      if next in t && t[next].Dir? {
        WalkMissing(t, links, next, rest[1..], more);
      } else if next in t && t[next].Symlink? {
        assert t[next].target + (rest + more)[1..] == (t[next].target + rest[1..]) + more;
        WalkMissing(t, links - 1, if t[next].rooted then [] else at, t[next].target + rest[1..], more);
      }
    }
  }

  // ----- paths without links -----

  /** No existing prefix of `p` is a symbolic link, and its segments are names. */
  ghost predicate Literal(t: Tree, p: Path) {
    ProperNames(p) && forall n :: 0 <= n <= |p| && p[..n] in t ==> !t[p[..n]].Symlink?
  }

  /** What the operating system answers about a literal path, read off the tree. */
  function Look(t: Tree, p: Path): Outcome
  {
    if p in t then Found(p)
    else if exists n :: 0 <= n < |p| && p[..n] in t && !t[p[..n]].Dir? then NotDir
    else NotExist
  }

  lemma {:induction false} LiteralWalkFrom(t: Tree, links: nat, p: Path, n: nat, follow: bool)
    requires WellFormed(t) && Literal(t, p) && n <= |p|
    requires IsDir(t, p[..n])
    ensures Walk(t, links, p[..n], p[n..], follow) == Look(t, p)
    decreases |p| - n
  {
    if n == |p| {
      assert p[..n] == p;
    } else {
      assert p[n] in p;
      var next := p[..n] + [p[n]];
      assert next == p[..n + 1];
      assert p[n..][1..] == p[n + 1..];
      if next !in t {
        forall k | 0 <= k < |p| && p[..k] in t
          ensures t[p[..k]].Dir?
        {
          if k <= n {
            AncestorsAreDirs(t, p[..n], k);
            assert p[..n][..k] == p[..k];
          } else {
            NothingBelow(t, next, p[..k]);
          }
        }
        if p in t {
          AncestorsAreDirs(t, p, n + 1);
        }
      } else if t[next].Dir? {
        LiteralWalkFrom(t, links, p, n + 1, follow);
      } else if n + 1 == |p| {
        assert next == p;
      } else {
        assert p !in t by {
          if p in t { AncestorsAreDirs(t, p, n + 1); }
        }
      }
    }
  }

  /** A literal path is looked up exactly where it says, whatever the link budget. */
  lemma LiteralWalk(t: Tree, links: nat, p: Path, follow: bool)
    requires WellFormed(t) && Literal(t, p)
    ensures Walk(t, links, [], p, follow) == Look(t, p)
  {
    assert p[..0] == [] && p[0..] == p;
    LiteralWalkFrom(t, links, p, 0, follow);
  }

  // ----- trees without links -----

  ghost predicate NoLinks(t: Tree) {
    forall p :: p in t ==> !t[p].Symlink?
  }

  lemma {:induction false} WalkIsFollow(t: Tree, links: nat, at: Path, rest: seq<string>, follow: bool)
    requires WellFormed(t) && NoLinks(t) && IsDir(t, at) && Walk(t, links, at, rest, follow).Found?
    ensures Walk(t, links, at, rest, follow) == Found(Follow(at, rest)) && Follow(at, rest) in t
    decreases |rest|
  {
    if rest != [] {
      if rest[0] == "" || rest[0] == "." {
        WalkIsFollow(t, links, at, rest[1..], follow);
      } else if rest[0] == ".." {
        assert Placed(t, at);
        WalkIsFollow(t, links, Parent(at), rest[1..], follow);
      } else {
        var next := at + [rest[0]];
        if t[next].Dir? {
          WalkIsFollow(t, links, next, rest[1..], follow);
        } else {
          assert rest[1..] == [];
        }
      }
    }
  }

  lemma {:induction false} FollowIsWalk(t: Tree, links: nat, at: Path, p: GoPath, ups: nat, follow: bool)
    requires WellFormed(t) && NoLinks(t) && IsDir(t, at) && CanonicalAt(p, ups) && Follow(at, p.segs) in t
    ensures Walk(t, links, at, p.segs, follow) == Found(Follow(at, p.segs))
    decreases ups
  {
    if ups > 0 {
      var q := GoPath(p.rooted, p.segs[1..]);
      assert q.segs[ups - 1..] == p.segs[ups..];
      assert Placed(t, at);
      FollowIsWalk(t, links, Parent(at), q, ups - 1, follow);
    } else {
      assert p.segs[0..] == p.segs;
      FollowNames(at, p.segs);
      var place := at + p.segs;
      ProperPath(t, place);
      assert place[..|at|] == at && place[|at|..] == p.segs;
      LiteralWalkFrom(t, links, place, |at|, follow);
    }
  }

  /** In a tree without links, if a path leads somewhere, then so does its cleaned form, and to the same place. */
  lemma WalkOfClean(t: Tree, links: nat, at: Path, raw: string, follow: bool)
    requires WellFormed(t) && NoLinks(t) && IsDir(t, at) && (IsRooted(raw) ==> at == [])
    requires Walk(t, links, at, Split(raw, '/'), follow).Found?
    ensures Walk(t, links, at, ParsePath(raw).segs, follow) == Walk(t, links, at, Split(raw, '/'), follow)
  {
    WalkIsFollow(t, links, at, Split(raw, '/'), follow);
    ParsePathCanonical(raw);
    var ups: nat :| CanonicalAt(ParsePath(raw), ups);
    CleanFollows(raw, at);
    FollowIsWalk(t, links, at, ParsePath(raw), ups, follow);
  }
}
