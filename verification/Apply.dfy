/** The writer at work: staged writes, deferred deletes and the undo log, on a disk whose every forward
    step may fail. */
module Apply {
  import opened Text
  import opened Types
  import opened Paths
  import opened FileTree
  import opened PathSafe
  import opened Writer
  import opened Rollback
  import opened Batch

  /** The answer to one fallible step: it is done, or it fails, a write after `cut` bytes. */
  datatype Verdict = Proceed | Fault(cut: nat)

  /** The fallible steps: an operating-system call of the forward phase, or a look at the context. `made` is
      how many directories the same MkdirAll has made before. */
  datatype Step =
    | Inspecting | Reading | AskingContext
    | MakingDir(dir: Path, made: nat)
    | MakingTemp | Writing | SettingMode | Closing
    | Renaming(target: Path)
    | Removing

  type Oracle = (nat, Step) -> Verdict

  /** The file system during one batch. `verdicts` answers every fallible step in turn, whether an
      operating-system call of the forward phase or a look at the context; undo and cleanup steps fail
      only where a file cannot be opened for writing. Paths handed to the primitives carry no links, so each
      acts on the entry it names. */
  class Disk {
    var tree: Tree
    /** The files with bits outside the nine permission bits: set-user-id, set-group-id, sticky. */
    var special: set<Path>

    const verdicts: Oracle
    const suffixes: nat -> string
    /** Whether the process may open any file for writing, whatever its mode. */
    const privileged: bool
    var clock: nat

    /** Whether some step has failed by fault, cancellation or an exhausted name search. */
    ghost var faulted: bool
    /** Every tree the forward phase has passed through. */
    ghost var seen: seq<Tree>
    /** The deepest directory a failed MkdirAll has left behind, or the root if there is none. */
    ghost var leaked: Path
    /** The targets this batch has installed or removed. */
    ghost var touched: set<Path>
    /** The last fallible step. */
    ghost var last: Step

    constructor (tree: Tree, special: set<Path>, verdicts: Oracle, suffixes: nat -> string, privileged: bool)
      ensures this.tree == tree && this.special == special && this.privileged == privileged
      ensures this.verdicts == verdicts && this.suffixes == suffixes
      ensures !faulted && seen == [] && leaked == [] && touched == {}
    {
      this.tree, this.special, this.privileged := tree, special, privileged;
      this.verdicts, this.suffixes := verdicts, suffixes;
      clock, faulted, seen, leaked, touched, last := 0, false, [], [], {}, AskingContext;
    }

    method Ask(step: Step) returns (v: Verdict)
      modifies this`clock, this`faulted, this`last
      ensures v == verdicts(old(clock), step) && clock == old(clock) + 1 && last == step
      ensures faulted == (old(faulted) || v.Fault?)
    {
      v := verdicts(clock, step);
      clock, last := clock + 1, step;
      if v.Fault? { faulted := true; }
    }

    /** The last step asked was refused. */
    ghost predicate Refused()
      reads this`clock, this`last
    {
      clock > 0 && verdicts(clock - 1, last).Fault?
    }

    lemma RefusedIf()
      requires clock > 0
      ensures Refused() <==> verdicts(clock - 1, last).Fault?
    {
    }

    /** The forward phase moves to a new tree. */
    method Move(t: Tree)
      modifies this`tree, this`seen
      ensures tree == t && seen == old(seen) + [t]
    {
      tree := t;
      seen := seen + [t];
    }

    // ----- directories -----

    /** `os.MkdirAll` on a path with nothing but directories above it: one mkdir per missing directory. It
        fails exactly if one of these steps faults, and then leaves behind as many directories as steps
        had gone well before. */
    method MkdirAll(dir: Path) returns (ok: bool)
      requires WellFormed(tree) && Passable(tree, dir)
      modifies this`tree, this`seen, this`clock, this`faulted, this`leaked, this`last
      ensures ok ==> tree == AddDirs(old(tree), dir) && leaked == old(leaked) && faulted == old(faulted)
      ensures !ok ==> tree == AddDirs(old(tree), leaked) && faulted
      ensures !ok ==> leaked == [] || (leaked !in old(tree) && leaked < dir)
      ensures !ok && |NewDirs(old(tree), dir)| <= 1 ==> leaked == []
      ensures ok <==> MadeFrom(verdicts, old(clock), NewDirs(old(tree), dir))
      ensures !ok ==> clock == old(clock) + |NewDirs(old(tree), leaked)| + 1 && verdicts(clock - 1, last).Fault?
      ensures !ok ==> last.MakingDir? && last.made == |NewDirs(old(tree), leaked)| && (leaked != [] <==> last.made > 0)
      ensures last == old(last) || last.MakingDir?
      ensures clock >= old(clock)
      ensures Grew(old(seen), seen, old(tree), dir)
    {
      hide MadeFrom;
      ghost var start := tree;
      var made := 0;
      MadeNothing(verdicts, clock);
      for n := 0 to |dir|
        invariant tree == AddDirs(start, dir[..n])
        invariant made == |NewDirs(start, dir[..n])| && clock == old(clock) + made
        invariant MadeFrom(verdicts, old(clock), NewDirs(start, dir[..n]))
        invariant leaked == old(leaked) && faulted == old(faulted) && (last == old(last) || last.MakingDir?)
        invariant Grew(old(seen), seen, start, dir)
      {
        MkdirStep(start, dir, n);
        if dir[..n + 1] !in tree {
          var v := Ask(MakingDir(dir[..n + 1], made));
          MadeMore(verdicts, old(clock), NewDirs(start, dir[..n]), dir[..n + 1], NewDirs(start, dir));
          if v.Fault? {
            leaked := if dir[..n] in start then [] else dir[..n];
            return false;
          }
          made := made + 1;
          Move(tree[dir[..n + 1] := Dir]);
          GrewBy(old(seen), seen[..|seen| - 1], start, dir, n + 1);
          assert seen == seen[..|seen| - 1] + [tree];
        }
      }
      assert dir[..|dir|] == dir;
      return true;
    }

    /** `mkdirAllTracked`: the directories it created, shallowest first. */
    method MkdirAllTracked(dir: Path) returns (created: seq<Path>, ok: bool)
      requires WellFormed(tree) && Literal(tree, dir) && leaked == []
      modifies this`tree, this`seen, this`clock, this`faulted, this`leaked, this`last
      ensures ok ==> tree == AddDirs(old(tree), dir) && created == NewDirs(old(tree), dir) && leaked == []
      ensures ok ==> dir in old(tree) || Passable(old(tree), dir)
      ensures ok ==> faulted == old(faulted) && AllMade(verdicts, NewDirs(old(tree), dir))
      ensures !ok ==> tree == AddDirs(old(tree), leaked) && (faulted || !Passable(old(tree), dir))
      ensures !ok ==> leaked == [] || (leaked !in old(tree) && leaked < dir && Passable(old(tree), dir))
      ensures !ok && |NewDirs(old(tree), dir)| <= 1 ==> leaked == []
      ensures !ok ==> (leaked != [] <==> last.MakingDir? && last.made > 0) && (leaked != [] ==> faulted)
      ensures !ok ==> Refused() || !Passable(old(tree), dir)
      ensures !last.Removing? && !last.Renaming?
      ensures Grew(old(seen), seen, old(tree), dir)
      ensures seen != old(seen) ==> Passable(old(tree), dir)
      ensures clock >= old(clock)
    {
      hide MadeFrom;
      var missing := [];
      var probe := dir;
      assert dir[..|dir|] == dir;
      while true
        invariant |probe| <= |dir| && probe == dir[..|probe|]
        invariant tree == old(tree) && seen == old(seen) && leaked == [] && faulted == old(faulted)
        invariant clock >= old(clock)
        invariant NewDirs(tree, dir) == NewDirs(tree, probe) + Backwards(missing)
        invariant missing == [] <==> probe == dir
        invariant probe != dir ==> Look(tree, dir[..|probe| + 1]).NotExist?
        decreases |probe|
      {
        var v := Ask(Inspecting);
        if v.Fault? {
          return [], false;
        }
        var info := Look(tree, probe);
        if info.Found? {
          break;
        }
        if !info.NotExist? {
          NotDirBlocks(tree, dir, probe);
          return [], false;
        }
        BackwardsSnoc(missing, probe);
        missing := missing + [probe];
        var parent := Parent(probe);
        if parent == probe {
          break;
        }
        assert parent == dir[..|parent|] && dir[..|parent| + 1] == probe;
        probe := parent;
      }
      if missing == [] {
        MadeNothing(verdicts, clock);
        MadeAll(verdicts, clock, []);
        return [], true;
      }
      MissingPassable(tree, dir, |probe|);
      ghost var at := clock;
      ok := MkdirAll(dir);
      if !ok {
        return [], false;
      }
      MadeAll(verdicts, at, NewDirs(old(tree), dir));
      created := Reversed(missing);
      return created, true;
    }

    // ----- staging -----

    method CreateTemp(dir: Path) returns (tmp: Path, ok: bool)
      modifies this`tree, this`seen, this`clock, this`faulted, this`last
      ensures tmp == dir + [".gw-tmp-" + suffixes(old(clock))]
      ensures ok <==> verdicts(old(clock), MakingTemp).Proceed? && IsDir(old(tree), dir) && tmp !in old(tree)
      ensures ok ==> IsDir(old(tree), dir) && tmp !in old(tree) && StagingName(tmp)
      ensures ok ==> tree == old(tree)[tmp := File("", 0x180)] && seen == old(seen) + [tree]
      ensures ok ==> faulted == old(faulted)
      ensures !ok ==> tree == old(tree) && seen == old(seen) && (faulted || !IsDir(tree, dir))
      ensures !ok ==> Refused() || !IsDir(tree, dir) || Collides(suffixes, tree)
      ensures last == MakingTemp && clock > old(clock)
    {
      tmp := dir + [".gw-tmp-" + suffixes(clock)];
      var v := Ask(MakingTemp);
      if v.Fault? || !IsDir(tree, dir) {
        return tmp, false;
      }
      if tmp in tree {
        faulted := true;
        assert Named(tmp, suffixes, clock - 1);
        return tmp, false;
      }
      Move(tree[tmp := File("", 0x180)]);
      return tmp, true;
    }

    method WriteString(tmp: Path, content: string) returns (ok: bool)
      requires tmp in tree && tree[tmp].File?
      modifies this`tree, this`seen, this`clock, this`faulted, this`last
      ensures tmp in tree && tree[tmp].File? && tree == old(tree)[tmp := tree[tmp]]
      ensures seen == old(seen) + [tree]
      ensures ok ==> tree[tmp].data == content && faulted == old(faulted)
      ensures !ok ==> faulted && Refused()
      ensures last == Writing && clock > old(clock)
    {
      var v := Ask(Writing);
      var n := if v.Fault? && v.cut < |content| then v.cut else |content|;
      Move(tree[tmp := File(content[..n], tree[tmp].mode)]);
      return v.Proceed?;
    }

    method Chmod(tmp: Path, mode: nat) returns (ok: bool)
      requires tmp in tree && tree[tmp].File?
      modifies this`tree, this`seen, this`clock, this`faulted, this`last
      ensures ok ==> tree == old(tree)[tmp := File(old(tree)[tmp].data, mode)] && seen == old(seen) + [tree]
      ensures ok ==> faulted == old(faulted)
      ensures !ok ==> tree == old(tree) && seen == old(seen) && faulted && Refused()
      ensures last == SettingMode && clock > old(clock)
    {
      var v := Ask(SettingMode);
      if v.Fault? {
        return false;
      }
      Move(tree[tmp := File(tree[tmp].data, mode)]);
      return true;
    }

    /** Renaming a staging file onto its target replaces a file and refuses a directory. */
    method Rename(tmp: Path, abs: Path) returns (ok: bool)
      requires tmp in tree && tree[tmp].File?
      modifies this`tree, this`seen, this`clock, this`faulted, this`last, this`special, this`touched
      ensures ok ==> !IsDir(old(tree), abs) && tree == (old(tree) - {tmp})[abs := old(tree)[tmp]]
      ensures ok ==> seen == old(seen) + [tree] && faulted == old(faulted)
      ensures ok ==> special == old(special) - {abs} && touched == old(touched) + {abs}
      ensures !ok ==>
                tree == old(tree) && seen == old(seen) && (faulted || IsDir(tree, abs))
                    && (Refused() || IsDir(tree, abs))
      ensures !ok ==> special == old(special) && touched == old(touched)
      ensures last == Renaming(abs) && clock > old(clock)
      ensures ok ==> Renamed(verdicts, abs)
    {
      var v := Ask(Renaming(abs));
      if v.Fault? || IsDir(tree, abs) {
        return false;
      }
      special, touched := special - {abs}, touched + {abs};
      Move((tree - {tmp})[abs := tree[tmp]]);
      return true;
    }

    /** Content, mode, close. */
    method Fill(tmp: Path, p: PlannedOp, ghost before: Tree) returns (ok: bool)
      requires StagingName(tmp) && Parent(tmp) == Parent(p.abs) && IsDir(before, Parent(p.abs))
      requires tmp !in before && tmp in tree && tree[tmp].File? && tree == before[tmp := tree[tmp]]
      modifies this`tree, this`seen, this`clock, this`faulted, this`last
      ensures tmp in tree && tree[tmp].File? && tree == before[tmp := tree[tmp]]
      ensures ok ==> tree == before[tmp := NewFile(p)] && faulted == old(faulted)
      ensures !ok ==> faulted && Refused()
      ensures !last.MakingDir? && !last.Removing? && !last.Renaming? && clock > old(clock)
      ensures Staged(old(seen), seen, before, p)
    {
      hide StagedState, Staged, StagingName, IsDir, Parent;
      StagedNone(seen, before, p);
      ok := WriteString(tmp, p.content);
      StagingOnly(before, p, tmp, tree);
      StagedThen(old(seen), old(seen), before, p, tree);
      ghost var written := seen;
      if ok {
        ok := Chmod(tmp, p.mode);
        StagingOnly(before, p, tmp, tree);
        StagedThen(old(seen), written, before, p, tree);
      }
      if ok {
        var closed := Ask(Closing);
        ok := closed.Proceed?;
      }
    }

    /** Temporary file, content, mode, close; on any failure the temporary file is removed again. */
    method Stage(p: PlannedOp) returns (tmp: Path, ok: bool)
      modifies this`tree, this`seen, this`clock, this`faulted, this`last
      ensures ok ==> IsDir(old(tree), Parent(p.abs)) && tmp !in old(tree) && tree == old(tree)[tmp := NewFile(p)]
      ensures ok ==> faulted == old(faulted)
      ensures !ok ==> tree == old(tree) && (faulted || !IsDir(old(tree), Parent(p.abs)))
      ensures !ok ==> Refused() || !IsDir(old(tree), Parent(p.abs)) || Collides(suffixes, old(tree))
      ensures !last.MakingDir? && !last.Removing? && !last.Renaming? && clock > old(clock)
      ensures Staged(old(seen), seen, old(tree), p)
    {
      hide StagedState;
      ghost var before := tree;
      tmp, ok := CreateTemp(Parent(p.abs));
      if !ok {
        return tmp, false;
      }
      StagingOnly(before, p, tmp, tree);
      ok := Fill(tmp, p, before);
      if !ok {
        assert tree - {tmp} == before;
        tree := tree - {tmp};
      }
    }

    /** The second half of applyWrite: stage the content next to the target and rename it into place. */
    method Install(p: PlannedOp) returns (ok: bool)
      modifies this`tree, this`seen, this`clock, this`faulted, this`last, this`special, this`touched
      ensures ok ==> tree == old(tree)[p.abs := NewFile(p)]
      ensures ok ==> IsDir(old(tree), Parent(p.abs)) && !IsDir(old(tree), p.abs) && faulted == old(faulted)
      ensures ok ==> special == old(special) - {p.abs} && touched == old(touched) + {p.abs}
      ensures !ok ==> tree == old(tree) && special == old(special) && touched == old(touched)
      ensures !ok ==> faulted || !IsDir(old(tree), Parent(p.abs)) || IsDir(old(tree), p.abs)
      ensures !ok ==>
                Refused() || !IsDir(old(tree), Parent(p.abs)) || IsDir(old(tree), p.abs)
                    || Collides(suffixes, old(tree))
      ensures !last.MakingDir? && !last.Removing? && (last.Renaming? ==> last.target == p.abs)
      ensures clock >= old(clock)
      ensures ok ==> Renamed(verdicts, p.abs) && Latest(old(seen), seen, tree)
      ensures Staged(old(seen), seen, old(tree), p)
    {
      hide Staged;
      ghost var before := tree;
      var tmp, staged := Stage(p);
      if !staged {
        return false;
      }
      ghost var during := seen;
      ok := Rename(tmp, p.abs);
      if ok {
        assert tree == before[p.abs := NewFile(p)];
        StagedThen(old(seen), during, before, p, tree);
        StagedGrows(old(seen), during, before, p);
      } else {
        assert tree - {tmp} == before;
        tree := tree - {tmp};
      }
    }
  }

  // ----- the log of states -----

  lemma StagingOnly(t: Tree, p: PlannedOp, tmp: Path, s: Tree)
    requires StagingName(tmp) && Parent(tmp) == Parent(p.abs) && IsDir(t, Parent(p.abs))
    requires tmp !in t && tmp in s && s[tmp].File? && s == t[tmp := s[tmp]]
    ensures StagedState(t, p, s)
  {
  }

  lemma StagedNone(log: seq<Tree>, t: Tree, p: PlannedOp)
    ensures Staged(log, log, t, p)
  {
  }

  lemma StagedThen(before: seq<Tree>, after: seq<Tree>, t: Tree, p: PlannedOp, s: Tree)
    requires Staged(before, after, t, p) && StagedState(t, p, s)
    ensures Staged(before, after + [s], t, p)
  {
  }

  lemma StagedGrows(before: seq<Tree>, after: seq<Tree>, t: Tree, p: PlannedOp)
    requires Staged(before, after, t, p)
    ensures before <= after
  {
  }

  ghost predicate StagedState(t: Tree, p: PlannedOp, s: Tree) {
    && IsDir(t, Parent(p.abs))
    && (forall q :: q in s ==>
          || (q in t && s[q] == t[q])
          || (q !in t && Staging(q, p, s[q]))
          || (q == p.abs && s[q] == NewFile(p)))
    && (forall q :: q in t ==> q in s)
  }

  /** The log has grown, and ends with `t`. */
  ghost predicate Latest(before: seq<Tree>, after: seq<Tree>, t: Tree) {
    |before| < |after| && after[|after| - 1] == t
  }

  /** `t` is among the states added to the log. */
  ghost predicate SeenSince(before: seq<Tree>, after: seq<Tree>, t: Tree) {
    exists i :: |before| <= i < |after| && after[i] == t
  }

  /** The states appended to the log are `t` with perhaps a staging file and perhaps the target installed. */
  ghost predicate Staged(before: seq<Tree>, after: seq<Tree>, t: Tree, p: PlannedOp) {
    && before <= after
    && forall i :: |before| <= i < |after| ==> StagedState(t, p, after[i])
  }

  method Reversed<T>(items: seq<T>) returns (r: seq<T>)
    ensures r == Backwards(items)
  {
    r := [];
    for i := |items| downto 0
      invariant r == Backwards(items[i..])
    {
      assert items[i..][1..] == items[i + 1..];
      r := r + [items[i]];
    }
    assert items[0..] == items;
  }

  lemma NotDirBlocks(t: Tree, dir: Path, probe: Path)
    requires probe <= dir && Look(t, probe).NotDir?
    ensures !Passable(t, dir)
  {
    var n :| 0 <= n < |probe| && probe[..n] in t && !t[probe[..n]].Dir?;
    assert dir[..n] == probe[..n];
  }

  lemma MissingPassable(t: Tree, dir: Path, n: nat)
    requires WellFormed(t) && Literal(t, dir) && n < |dir|
    requires Look(t, dir[..n + 1]).NotExist?
    ensures Passable(t, dir)
  {
    var child := dir[..n + 1];
    forall k | 0 <= k <= |dir| && dir[..k] in t
      ensures t[dir[..k]].Dir?
    {
      if k <= n {
        assert child[..k] == dir[..k];
      } else if k > n + 1 {
        NothingBelow(t, child, dir[..k]);
      }
    }
  }
  /** The states appended to the log are `start` with some of the directories down to `dir`. */
  ghost predicate Grew(before: seq<Tree>, after: seq<Tree>, start: Tree, dir: Path) {
    && before <= after
    && forall i :: |before| <= i < |after| ==> PartOfChain(start, dir, after[i])
  }

  ghost predicate PartOfChain(start: Tree, dir: Path, s: Tree) {
    exists n :: 0 <= n <= |dir| && s == AddDirs(start, dir[..n])
  }

  lemma GrewLonger(before: seq<Tree>, after: seq<Tree>, start: Tree, dir: Path)
    requires Grew(before, after, start, dir)
    ensures before <= after
  {
  }

  lemma LatestFrom(before: seq<Tree>, middle: seq<Tree>, after: seq<Tree>, t: Tree)
    requires before <= middle && Latest(middle, after, t)
    ensures Latest(before, after, t)
  {
  }

  lemma GrewBy(before: seq<Tree>, after: seq<Tree>, start: Tree, dir: Path, n: nat)
    requires Grew(before, after, start, dir) && n <= |dir|
    ensures Grew(before, after + [AddDirs(start, dir[..n])], start, dir)
  {
    assert PartOfChain(start, dir, AddDirs(start, dir[..n]));
  }

  /** `q` has the name that the search for a staging name comes up with at that time. */
  predicate Named(q: Path, suffixes: nat -> string, clock: nat) {
    q != [] && q[|q| - 1] == ".gw-tmp-" + suffixes(clock)
  }

  /** A staging name can be taken. */
  ghost predicate Collides(suffixes: nat -> string, t: Tree) {
    exists q, clock: nat :: q in t && Named(q, suffixes, clock)
  }

  /** A staging name can be taken by an entry of the start, by a target or by a missing parent. */
  ghost predicate NamesCollide(suffixes: nat -> string, start: Tree, batch: seq<PlannedOp>) {
    exists q, clock: nat :: (q in start || Needed(batch, q)) && Named(q, suffixes, clock)
  }

  /** The mkdirs of these directories, asked from `clock` on, go well. */
  ghost predicate MadeFrom(verdicts: Oracle, clock: nat, dirs: seq<Path>) {
    forall i :: 0 <= i < |dirs| ==> verdicts(clock + i, MakingDir(dirs[i], i)).Proceed?
  }

  /** Some rename onto this target goes well. */
  ghost predicate Renamed(verdicts: Oracle, target: Path) {
    exists clock: nat :: verdicts(clock, Renaming(target)).Proceed?
  }

  /** At how many of these times a look at the context goes well. */
  ghost function Looks(verdicts: Oracle, from: nat, to: nat): nat {
    if to <= from then 0
    else Looks(verdicts, from, to - 1) + if verdicts(to - 1, AskingContext).Proceed? then 1 else 0
  }

  lemma {:induction false} LooksGrow(verdicts: Oracle, from: nat, middle: nat, to: nat)
    requires from <= middle <= to
    ensures Looks(verdicts, from, middle) <= Looks(verdicts, from, to)
  {
    if middle < to {
      LooksGrow(verdicts, from, middle, to - 1);
    }
  }

  /** No more targets have been touched than looks at the context have gone well. */
  ghost predicate Looked(verdicts: Oracle, since: nat, clock: nat, touched: set<Path>) {
    since <= clock && |touched| <= Looks(verdicts, since, clock)
  }

  lemma LookedFirst(verdicts: Oracle, since: nat, clock: nat)
    requires since <= clock
    ensures Looked(verdicts, since, clock, {})
  {
  }

  lemma LookedStays(verdicts: Oracle, since: nat, at: nat, clock: nat, touched: set<Path>)
    requires Looked(verdicts, since, at, touched) && at <= clock
    ensures Looked(verdicts, since, clock, touched)
  {
    LooksGrow(verdicts, since, at, clock);
  }

  /** A look that goes well allows one more. */
  lemma LookedAgain(verdicts: Oracle, since: nat, at: nat, clock: nat, touched: set<Path>, abs: Path)
    requires Looked(verdicts, since, at, touched) && at < clock && verdicts(at, AskingContext).Proceed?
    ensures Looked(verdicts, since, clock, touched + {abs})
  {
    LooksGrow(verdicts, since, at + 1, clock);
    if abs in touched {
      assert touched + {abs} == touched;
    }
  }

  /** Some removal goes well. */
  ghost predicate SomeRemoval(verdicts: Oracle) {
    exists clock: nat :: verdicts(clock, Removing).Proceed?
  }

  /** They went well at some time. */
  ghost predicate AllMade(verdicts: Oracle, dirs: seq<Path>) {
    exists clock: nat :: MadeFrom(verdicts, clock, dirs)
  }

  lemma MadeNothing(verdicts: Oracle, clock: nat)
    ensures MadeFrom(verdicts, clock, [])
  {
  }

  lemma MadeMore(verdicts: Oracle, clock: nat, dirs: seq<Path>, dir: Path, all: seq<Path>)
    requires MadeFrom(verdicts, clock, dirs) && dirs + [dir] <= all
    ensures var v := verdicts(clock + |dirs|, MakingDir(dir, |dirs|));
            if v.Proceed? then MadeFrom(verdicts, clock, dirs + [dir]) else !MadeFrom(verdicts, clock, all)
  {
    var n := |dirs|;
    assert (dirs + [dir])[n] == dir && all[n] == dir;
    assert MadeFrom(verdicts, clock, all) ==> verdicts(clock + n, MakingDir(all[n], n)).Proceed?;
  }

  lemma MadeAll(verdicts: Oracle, clock: nat, dirs: seq<Path>)
    requires MadeFrom(verdicts, clock, dirs)
    ensures AllMade(verdicts, dirs)
  {
  }

  lemma MkdirStep(start: Tree, dir: Path, n: nat)
    requires WellFormed(start) && Passable(start, dir) && n < |dir|
    ensures var t := AddDirs(start, dir[..n]);
            && (dir[..n + 1] in t <==> dir[..n + 1] in start)
            && AddDirs(start, dir[..n + 1]) == (if dir[..n + 1] in t then t else t[dir[..n + 1] := Dir])
            && (dir[..n] in start ==> t == start)
            && (dir[..n] !in start ==> |NewDirs(start, dir)| > 1 && dir[..n] != [])
            && |NewDirs(start, dir[..n + 1])| == |NewDirs(start, dir[..n])| + (if dir[..n + 1] in t then 0 else 1)
            && (dir[..n + 1] in t ==> NewDirs(start, dir[..n + 1]) == NewDirs(start, dir[..n]) == [])
            && (dir[..n + 1] !in t ==> NewDirs(start, dir[..n + 1]) == NewDirs(start, dir[..n]) + [dir[..n + 1]])
            && (dir[..n + 1] !in t ==> NewDirs(start, dir[..n + 1]) <= NewDirs(start, dir))
  {
    var d, d' := dir[..n], dir[..n + 1];
    assert Parent(d') == d;
    AddDirsAt(start, d);
    assert !Above(d', d);
    if d' in start {
      AncestorsAreDirs(start, d', n);
      assert d'[..n] == d;
    }
    if d' !in start {
      NewDirsGrow(start, dir, n + 1);
    }
  }

  lemma {:induction false} NewDirsGrow(t: Tree, dir: Path, n: nat)
    requires WellFormed(t) && n <= |dir| && dir[..n] !in t
    ensures NewDirs(t, dir[..n]) <= NewDirs(t, dir)
    decreases |dir|
  {
    assert dir[..|dir|] == dir;
    if n < |dir| {
      assert Parent(dir)[..n] == dir[..n];
      if dir in t {
        AncestorsAreDirs(t, dir, n);
      } else {
        NewDirsGrow(t, Parent(dir), n);
      }
    }
  }

  // ----- what one write does to the undo log -----

  /** `t` still has everything `start` has, and directories only where `start` has none or directories. */
  ghost predicate Kept(start: Tree, t: Tree) {
    forall q :: q in start ==> q in t && (t[q].Dir? ==> start[q].Dir?)
  }

  /** Recorded, against the tree in which the operation is about to be applied. */
  ghost predicate Ready(t: Tree, p: PlannedOp) {
    && p.abs != [] && p.operation != OpDelete
    && Literal(t, p.abs)
    && (p.existed ==> p.abs in t && t[p.abs] == File(p.before, p.mode))
    && (!p.existed ==> p.abs !in t || IsDir(t, p.abs))
  }

  function DirUndo(t: Tree, p: PlannedOp): seq<Undo> {
    var created := NewDirs(t, Parent(p.abs));
    if created == [] then [] else [UndoDirs(created)]
  }

  lemma LeakedStray(start: Tree, t: Tree, dir: Path, leak: Path)
    requires Kept(start, t)
    requires leak == [] || (leak !in t && leak < dir && Passable(t, dir))
    ensures Stray(start, t, leak)
  {
    if leak != [] {
      assert forall n :: 0 <= n <= |leak| ==> leak[..n] == dir[..n];
      assert forall s :: s in leak ==> s in dir;
    }
  }

  lemma RootStray(start: Tree, t: Tree)
    ensures Stray(start, t, [])
    ensures AddDirs(t, []) == t
  {
  }

  lemma DirsRestored(start: Tree, t: Tree, undos: seq<Undo>, p: PlannedOp)
    requires WellFormed(t) && Restores(start, t, undos)
    requires Parent(p.abs) in t || Passable(t, Parent(p.abs))
    ensures Restores(start, AddDirs(t, Parent(p.abs)), undos + DirUndo(t, p))
  {
    var dir := Parent(p.abs);
    if NewDirs(t, dir) == [] {
      assert AddDirs(t, dir) == t;
      assert undos + [] == undos;
    } else {
      DirsInvert(start, t, dir);
      RestoresLonger(start, t, AddDirs(t, dir), undos, UndoDirs(NewDirs(t, dir)));
    }
  }

  /** The start as a failure would leave it once `p` is installed. */
  function After(start: Tree, p: PlannedOp, privileged: bool): Tree {
    if Sticks(p, privileged) then start[p.abs := NewFile(p)] else start
  }

  lemma WriteRestored(start: Tree, t: Tree, undos: seq<Undo>, p: PlannedOp, privileged: bool)
    requires WellFormed(start) && WellFormed(t) && Restores(start, t, undos) && ProperNames(p.abs) && p.abs != []
    requires IsDir(t, Parent(p.abs)) && p.operation != OpDelete
    requires p.existed <==> p.abs in t
    requires p.existed ==> t[p.abs] == File(p.before, p.mode)
    requires Sticks(p, privileged) ==> p.abs in start && start[p.abs].File? && AllSpare(undos, p.abs)
    ensures Restores(After(start, p, privileged), t[p.abs := NewFile(p)],
                     undos + [UndoWrite(p.abs, p.before, p.existed, p.mode, privileged)])
  {
    assert p.abs[|p.abs| - 1] in p.abs;
    if Sticks(p, privileged) {
      StuckWrite(start, t, undos, p.abs, NewFile(p), p.before, privileged);
    } else {
      WriteInverts(start, t, p.abs, p.content, p.mode, p.before, p.existed, privileged);
      RestoresLonger(start, t, t[p.abs := NewFile(p)], undos,
                     UndoWrite(p.abs, p.before, p.existed, p.mode, privileged));
    }
  }

  lemma DirsSpare(t: Tree, undos: seq<Undo>, p: PlannedOp)
    ensures forall q :: q in t && AllSpare(undos, q) ==> AllSpare(undos + DirUndo(t, p), q)
  {
    NewDirsAreNew(t, Parent(p.abs));
  }

  lemma {:induction false} NewDirsAreNew(t: Tree, d: Path)
    ensures forall q :: q in NewDirs(t, d) ==> q !in t
    decreases |d|
  {
    if d !in t && d != [] {
      NewDirsAreNew(t, Parent(d));
    }
  }

  lemma WriteSpares(undos: seq<Undo>, p: PlannedOp, privileged: bool)
    ensures forall q :: q != p.abs && AllSpare(undos, q) ==>
              AllSpare(undos + [UndoWrite(p.abs, p.before, p.existed, p.mode, privileged)], q)
  {
  }

  lemma DeleteRestored(start: Tree, t: Tree, undos: seq<Undo>, p: PlannedOp, privileged: bool)
    requires WellFormed(t) && Restores(start, t, undos) && p.abs != []
    requires p.abs in t && t[p.abs] == File(p.before, p.mode)
    requires p.abs in start && start[p.abs].File?
    ensures Restores(start, t - {p.abs}, undos + [UndoDelete(p.abs, p.before, p.mode, privileged)])
  {
    DeleteInverts(start, t, p.abs, privileged);
    RestoresLonger(start, t, t - {p.abs}, undos, UndoDelete(p.abs, p.before, p.mode, privileged));
  }

  ghost predicate MidwayLog(before: seq<Tree>, after: seq<Tree>, t: Tree, p: PlannedOp) {
    && before <= after
    && forall i :: |before| <= i < |after| ==> Midway(t, p, after[i])
  }

  lemma ChainMidway(t: Tree, p: PlannedOp, s: Tree)
    requires WellFormed(t) && p.abs != [] && PartOfChain(t, Parent(p.abs), s) && Passable(t, Parent(p.abs))
    ensures Midway(t, p, s)
  {
    var dir := Parent(p.abs);
    var n :| 0 <= n <= |dir| && s == AddDirs(t, dir[..n]);
    AddDirsAt(t, dir[..n]);
    assert forall q :: Above(q, dir[..n]) ==> q < p.abs;
  }

  lemma StagedMidway(t: Tree, p: PlannedOp, s: Tree)
    requires WellFormed(t) && p.abs != [] && ProperNames(p.abs) && StagedState(AddDirs(t, Parent(p.abs)), p, s)
    requires Parent(p.abs) in t || Passable(t, Parent(p.abs))
    ensures Midway(t, p, s)
  {
    AfterDirs(t, p);
    AddDirsAt(t, Parent(p.abs));
    assert forall q :: Above(q, Parent(p.abs)) ==> q < p.abs;
    hide WellFormed, Passable, AddDirs, StagingName;
  }

  lemma LogsMidway(before: seq<Tree>, middle: seq<Tree>, after: seq<Tree>, t: Tree, p: PlannedOp)
    requires WellFormed(t) && p.abs != [] && ProperNames(p.abs)
    requires Parent(p.abs) in t || Passable(t, Parent(p.abs))
    requires Grew(before, middle, t, Parent(p.abs)) && (middle != before ==> Passable(t, Parent(p.abs)))
    requires Staged(middle, after, AddDirs(t, Parent(p.abs)), p)
    ensures MidwayLog(before, after, t, p)
  {
    forall i | |before| <= i < |after| ensures Midway(t, p, after[i]) {
      if i < |middle| {
        assert after[i] == middle[i];
        ChainMidway(t, p, middle[i]);
      } else {
        StagedMidway(t, p, after[i]);
      }
    }
  }

  class FileWriter {
    const v: Validator
    const disk: Disk

    constructor (v: Validator, disk: Disk)
      ensures this.v == v && this.disk == disk
    {
      this.v, this.disk := v, disk;
    }

    /** Runs the undo log in reverse. */
    method Rollback(undos: seq<Undo>)
      modifies disk`tree
      ensures disk.tree == RolledBack(old(disk.tree), undos)
    {
      assert undos[..|undos|] == undos;
      for i := |undos| downto 0
        invariant RolledBack(disk.tree, undos[..i]) == RolledBack(old(disk.tree), undos)
      {
        assert undos[..i + 1][..i] == undos[..i];
        disk.tree := Undone(disk.tree, undos[i]);
      }
    }

    /** applyWrite: on success the file is installed and the log can undo it, unless it sticks; on failure
        running the log gives the start back, with whatever chain of directories a failed MkdirAll has leaked.
        Only a mkdir after the first of its MkdirAll leaks anything. */
    method ApplyWrite(p: PlannedOp, undos: seq<Undo>, ghost start: Tree) returns (log: seq<Undo>, ok: bool)
      requires WellFormed(start) && WellFormed(disk.tree) && Ready(disk.tree, p) && disk.leaked == []
      requires Kept(start, disk.tree) && Restores(start, disk.tree, undos)
      requires Sticks(p, disk.privileged) ==> p.abs in start && start[p.abs].File? && AllSpare(undos, p.abs)
      modifies disk
      ensures ok ==> disk.tree == Installed(old(disk.tree), p) && Unblocked(old(disk.tree), p)
      ensures ok ==> Restores(After(start, p, disk.privileged), disk.tree, log) && disk.leaked == []
      ensures ok ==> disk.faulted == old(disk.faulted) && AllMade(disk.verdicts, NewDirs(old(disk.tree), Parent(p.abs)))
      ensures ok ==> disk.special == old(disk.special) - {p.abs} && disk.touched == old(disk.touched) + {p.abs}
      ensures ok ==> forall q :: q in old(disk.tree) && q != p.abs && AllSpare(undos, q) ==> AllSpare(log, q)
      ensures !ok ==> RolledBack(disk.tree, log) == AddDirs(start, disk.leaked)
      ensures !ok ==> Stray(start, old(disk.tree), disk.leaked)
      ensures !ok ==> disk.special == old(disk.special) && disk.touched == old(disk.touched)
      ensures !ok ==> disk.faulted || (disk.leaked == [] && !Unblocked(old(disk.tree), p))
      ensures !ok ==> disk.Refused() || !Unblocked(old(disk.tree), p)
                      || (Passable(old(disk.tree), Parent(p.abs))
                          && Collides(disk.suffixes, AddDirs(old(disk.tree), Parent(p.abs))))
      ensures !ok ==> (disk.leaked != [] <==> disk.last.MakingDir? && disk.last.made > 0) && !disk.last.Removing?
      ensures disk.last.Renaming? ==> disk.last.target == p.abs
      ensures ok ==> Renamed(disk.verdicts, p.abs) && Latest(old(disk.seen), disk.seen, disk.tree)
      ensures !ok && disk.leaked != [] ==>
                disk.leaked < p.abs && Passable(old(disk.tree), Parent(p.abs))
                    && |NewDirs(old(disk.tree), Parent(p.abs))| > 1
      ensures MidwayLog(old(disk.seen), disk.seen, old(disk.tree), p)
      ensures disk.clock >= old(disk.clock)
    {
      hide *;
      ghost var t := disk.tree;
      ReadyMeans(t, p);
      var dir := Parent(p.abs);
      log := undos;
      LiteralUp(t, p.abs);
      var created, made := disk.MkdirAllTracked(dir);
      ghost var middle := disk.seen;
      if !made {
        LeakAbove(disk.leaked, p);
        LeakedStray(start, t, dir, disk.leaked);
        RolledBackStray(start, t, undos, disk.leaked);
        LogsMidwayShort(old(disk.seen), disk.seen, t, p);
        return log, false;
      }
      DirsRestored(start, t, undos, p);
      if created != [] {
        log := log + [UndoDirs(created)];
      }
      DirUndoIs(t, undos, p);
      DirsSpare(t, undos, p);
      ghost var t1, log1 := disk.tree, log;
      GrewLonger(old(disk.seen), middle, t, dir);
      ok := disk.Install(p);
      LogsMidway(old(disk.seen), middle, disk.seen, t, p);
      AfterDirs(t, p);
      if !ok {
        NothingLeft(start, t1, log);
        RootStray(start, t);
        return log, false;
      }
      LatestFrom(old(disk.seen), middle, disk.seen, disk.tree);
      AddedDirsWellFormed(t, dir);
      StickExisted(p, disk.privileged);
      WriteRestored(start, t1, log, p, disk.privileged);
      log := log + [UndoWrite(p.abs, p.before, p.existed, p.mode, disk.privileged)];
      WriteSpares(log1, p, disk.privileged);
    }

    /** applyDelete: removes an existing file; the log can restore it. */
    method ApplyDelete(p: PlannedOp, undos: seq<Undo>, ghost start: Tree) returns (log: seq<Undo>, ok: bool)
      requires WellFormed(disk.tree) && p.abs != []
      requires p.abs in disk.tree && disk.tree[p.abs] == File(p.before, p.mode)
      requires p.abs in start && start[p.abs].File?
      requires Restores(start, disk.tree, undos)
      modifies disk
      ensures ok ==> disk.tree == old(disk.tree) - {p.abs} && Restores(start, disk.tree, log)
      ensures ok ==> disk.special == old(disk.special) - {p.abs} && disk.touched == old(disk.touched) + {p.abs}
      ensures ok ==> disk.faulted == old(disk.faulted) && disk.seen == old(disk.seen) + [disk.tree]
      ensures ok ==> SomeRemoval(disk.verdicts)
      ensures !ok ==> disk.tree == old(disk.tree) && log == undos && disk.faulted && disk.Refused()
      ensures !ok ==>
                disk.special == old(disk.special) && disk.touched == old(disk.touched) && disk.seen == old(disk.seen)
      ensures disk.leaked == old(disk.leaked) && disk.last == Removing && disk.clock >= old(disk.clock)
    {
      hide Restores, WellFormed;
      var removed := disk.Ask(Removing);
      if removed.Fault? {
        return undos, false;
      }
      assert disk.verdicts(disk.clock - 1, Removing).Proceed?;
      DeleteRestored(start, disk.tree, undos, p, disk.privileged);
      disk.special, disk.touched := disk.special - {p.abs}, disk.touched + {p.abs};
      disk.Move(Removed(disk.tree, p.abs));
      return undos + [UndoDelete(p.abs, p.before, p.mode, disk.privileged)], true;
    }

    /** Planning changes nothing on the disk. Without a failing read it is the plan. */
    method PlanBatch(ops: seq<FileOp>) returns (r: Result<seq<PlannedOp>, WriteError>)
      requires WellFormed(disk.tree) && IsDir(disk.tree, v.root)
      modifies disk`clock, disk`faulted, disk`last
      ensures r.Success? ==> r == Plan(v, disk.tree, ops) && disk.faulted == old(disk.faulted)
      ensures disk.last == old(disk.last) || disk.last.Inspecting? || disk.last.Reading?
      ensures disk.clock >= old(disk.clock)
      ensures r.Failure? ==>
                || r == Plan(v, disk.tree, ops)
                || (disk.faulted && disk.Refused() && r.error.reason == IoError
                    && NamesAny(v, disk.tree, ops, r.error.path))
    {
      hide WellFormed, Resolve, RelString, NamesAny;
      var planned: seq<PlannedOp> := [];
      var claimed: map<Path, seq<string>> := map[];
      for i := 0 to |ops|
        invariant Plan(v, disk.tree, ops[..i]) == Success(planned)
        invariant disk.clock >= old(disk.clock)
        invariant forall abs :: abs in claimed <==> Claimed(planned, abs)
        invariant disk.faulted == old(disk.faulted)
                  && (disk.last == old(disk.last) || disk.last.Inspecting? || disk.last.Reading?)
      {
        var op := ops[i];
        assert ops[..i + 1][..i] == ops[..i];
        PlanStops(v, disk.tree, ops, i + 1);
        var resolved := ResolvePath(v, disk.tree, op.path);
        if resolved.Failure? {
          return Failure(resolved.error);
        }
        var rel, abs := resolved.value.rel, resolved.value.abs;
        OpIsNamed(v, disk.tree, ops, i);
        if abs in claimed {
          return Failure(WriteError(DuplicateTarget, RelString(rel)));
        }
        claimed := claimed[abs := rel];

        var inspected := disk.Ask(Inspecting);
        if inspected.Fault? {
          return Failure(WriteError(IoError, RelString(rel)));
        }
        var info := Lstat(disk.tree, abs);
        if !info.Found? && !info.NotExist? {
          return Failure(WriteError(IoError, RelString(rel)));
        }
        if info.Found? && (info.path !in disk.tree || !disk.tree[info.path].File?) {
          return Failure(WriteError(NotRegularFile, RelString(rel)));
        }
        var prior: Option<Node> := None;
        if info.Found? {
          var read := disk.Ask(Reading);
          if read.Fault? {
            return Failure(WriteError(IoError, RelString(rel)));
          }
          prior := Some(disk.tree[info.path]);
        }
        var p := Planned(rel, abs, op, prior);
        ClaimedLonger(planned, p);
        planned := planned + [p];
      }
      assert ops[..|ops|] == ops;
      return Success(planned);
    }

    /** DryRun: the changes of the plan, with nothing touched. */
    method DryRun(ops: seq<FileOp>) returns (r: Result<seq<Change>, WriteError>)
      requires WellFormed(disk.tree) && IsDir(disk.tree, v.root)
      modifies disk`clock, disk`faulted, disk`last
      ensures r.Success? ==> Plan(v, disk.tree, ops).Success? && r.value == ChangesOf(Plan(v, disk.tree, ops).value)
      ensures r.Success? ==> Reported(v, disk.tree, ops, r.value)
      ensures r.Failure? ==>
                || (disk.faulted && r.error.reason == IoError && NamesAny(v, disk.tree, ops, r.error.path))
                || (Plan(v, disk.tree, ops).Failure? && r.error == Plan(v, disk.tree, ops).error)
    {
      hide *;
      var planned := PlanBatch(ops);
      if planned.Failure? {
        return Failure(planned.error);
      }
      PlanReported(v, disk.tree, ops);
      var changes := Changes(planned.value);
      return Success(changes);
    }

    /** Apply: the whole batch or nothing.
        Success: the tree is the declared update, the batch was prefix-free, the changes are those of the
        plan; the targets it touched keep no special mode bits.
        Failure: the tree is the start with two exceptions. A write over a file that cannot be reopened sticks;
        and a chain of directories stays exactly if the step that failed is a mkdir after the first of its
        MkdirAll, and then the batch is leaky at the write that was under way.
        Without a fault, Apply succeeds exactly if the batch has a plan and is prefix-free.
        A failure with operations done comes from a later write or, after the last, from a file to remove.
        Every tree the forward phase passes through has the shape that keeps targets whole, and the tree after each
        write is among them.
        `reached` is how many operations the write loop completed. */
    method Apply(ops: seq<FileOp>) returns (r: Result<seq<Change>, WriteError>, ghost reached: nat)
      requires WellFormed(disk.tree) && IsDir(disk.tree, v.root)
      modifies disk
      ensures WellFormed(disk.tree)
      ensures r.Success? ==>
                var plan := Plan(v, old(disk.tree), ops);
                && plan.Success? && PrefixFree(plan.value)
                && disk.tree == Final(old(disk.tree), plan.value)
                && Done(v, old(disk.tree), ops, disk.tree)
                && r.value == ChangesOf(plan.value) && Reported(v, old(disk.tree), ops, r.value)
                && disk.touched == Touches(plan.value)
                && disk.leaked == []
      ensures r.Failure? ==>
                r.error.reason == IoError
                    || (Plan(v, old(disk.tree), ops).Failure? && r.error == Plan(v, old(disk.tree), ops).error)
      ensures r.Failure? ==>
                var plan := Plan(v, old(disk.tree), ops);
                plan.Success? ==> Culprit(plan.value, reached, r.error.path)
      ensures r.Failure? ==>
                LeftBehind(v, old(disk.tree), ops, reached, disk.privileged, disk.tree, disk.leaked, disk.touched)
      ensures r.Failure? ==> (disk.leaked != [] <==> disk.last.MakingDir? && disk.last.made > 0)
      ensures r.Failure? && disk.leaked != [] ==> disk.faulted
      ensures disk.special == old(disk.special) - disk.touched
      ensures !disk.faulted ==>
                var plan := Plan(v, old(disk.tree), ops);
                && (r.Success? <==> plan.Success? && PrefixFree(plan.value))
                && (plan.Failure? ==> r == Failure(plan.error))
      ensures var plan := Plan(v, old(disk.tree), ops); plan.Success? ==>
                && Passed(disk.verdicts, old(disk.tree), plan.value, reached)
                && (r.Success? ==> reached == |plan.value|)
                && (r.Success? && DoomedTargets(plan.value) != {} ==> SomeRemoval(disk.verdicts))
                && (r.Failure? && disk.last.Removing? ==> reached == |plan.value|)
                && (r.Failure? && !disk.faulted ==> Stopped(old(disk.tree), plan.value, reached))
                && (r.Failure? ==> || disk.Refused() || Stopped(old(disk.tree), plan.value, reached)
                                   || NamesCollide(disk.suffixes, old(disk.tree), plan.value))
                && (r.Failure? ==> FailedAt(plan.value, reached, disk.last))
                && InstallsSeen(old(disk.seen), disk.seen, old(disk.tree), plan.value, reached)
      ensures ShapeLog(old(disk.seen), disk.seen, v, old(disk.tree), ops)
      ensures Looked(disk.verdicts, old(disk.clock), disk.clock, disk.touched)
    {
      hide *;
      disk.leaked, disk.touched, disk.last := [], {}, AskingContext;
      ghost var start, before, special := disk.tree, disk.seen, disk.special;
      PlanExact(v, start, ops);
      RootStray(start, start);
      var planned := PlanBatch(ops);
      reached := 0;
      if planned.Failure? {
        ShapeLogStart(before, v, start, ops);
        NothingTouched(special);
        LookedFirst(disk.verdicts, old(disk.clock), disk.clock);
        NothingReached(disk.verdicts, v, start, ops, disk.privileged);
        FailedEarly(v, start, ops, before, disk.last);
        LeftByPlan(v, start, ops, disk.privileged);
        PlanCulprit(v, start, ops, planned.error.path);
        return Failure(planned.error), 0;
      }
      var batch := planned.value;
      WritesBegin(start, v.root, batch, disk.privileged);
      var undos, ok, culprit;
      LookedFirst(disk.verdicts, old(disk.clock), disk.clock);
      undos, ok, culprit, reached := WritePhase(batch, start, old(disk.clock));
      ghost var middle := disk.seen;
      LogStart(disk.seen, start, batch);
      if ok {
        DeletesBegin(start, v.root, batch, disk.tree, undos, disk.privileged);
        undos, ok, culprit := DeletePhase(batch, undos, start, special, old(disk.clock));
      }
      LogOfBatch(before, middle, disk.seen, v, start, ops, batch, reached);
      if !ok {
        Rollback(undos);
        FrozenWellFormed(start, v.root, batch, reached, disk.privileged, disk.leaked);
        LeakBelowRoot(start, v.root, batch, reached, disk.leaked);
        LeftByBatch(v, start, ops, batch, reached, disk.privileged, disk.leaked, disk.touched);
        return Failure(WriteError(IoError, culprit)), reached;
      }
      DeletesEnd(start, v.root, batch, disk.tree, undos, disk.privileged);
      FinalDone(v, start, ops);
      PlanReported(v, start, ops);
      var changes := Changes(batch);
      return Success(changes), reached;
    }

    /** The write loop: every write in batch order, the context looked at before each. */
    method WritePhase(batch: seq<PlannedOp>, ghost start: Tree, ghost since: nat)
      returns (undos: seq<Undo>, ok: bool, culprit: string, ghost reached: nat)
      requires InWrites(start, v.root, batch, 0, disk.tree, [], disk.privileged)
      requires disk.leaked == [] && disk.touched == {} && !disk.last.MakingDir? && since <= disk.clock
      modifies disk
      ensures ok ==> InWrites(start, v.root, batch, |batch|, disk.tree, undos, disk.privileged) && reached == |batch|
      ensures ok ==> disk.leaked == [] && disk.touched == WriteTargets(batch) && disk.faulted == old(disk.faulted)
      ensures !ok ==> reached < |batch| && Stray(start, start, disk.leaked) && Culprit(batch, reached, culprit)
      ensures !ok ==>
                RolledBack(disk.tree, undos) == AddDirs(Frozen(start, batch, reached, disk.privileged), disk.leaked)
      ensures !ok ==> disk.faulted || (disk.leaked == [] && !PrefixFree(batch) && Stopped(start, batch, reached))
      ensures !ok ==> disk.Refused() || Stopped(start, batch, reached) || NamesCollide(disk.suffixes, start, batch)
      ensures !ok ==> (disk.leaked != [] <==> disk.last.MakingDir? && disk.last.made > 0) && !disk.last.Removing?
      ensures !ok && disk.leaked != [] ==>
                disk.faulted && Leaky(start, batch, reached) && disk.leaked < batch[reached].abs
      ensures reached <= |batch| && Passed(disk.verdicts, start, batch, reached)
      ensures !ok ==> FailedAt(batch, reached, disk.last)
      ensures disk.touched <= Touches(batch)
      ensures disk.special == old(disk.special) - disk.touched
      ensures BatchLog(old(disk.seen), disk.seen, start, batch)
      ensures InstallsSeen(old(disk.seen), disk.seen, start, batch, reached)
      ensures Looked(disk.verdicts, since, disk.clock, disk.touched)
    {
      hide *;
      undos := [];
      LogStart(disk.seen, start, batch);
      NothingTouched(disk.special);
      NoTargets(batch);
      LookedFirst(disk.verdicts, since, disk.clock);
      PassedNone(disk.verdicts, start, batch);
      NoInstalls(disk.seen, start, batch);
      for n := 0 to |batch|
        invariant InWrites(start, v.root, batch, n, disk.tree, undos, disk.privileged)
        invariant disk.leaked == [] && disk.faulted == old(disk.faulted)
        invariant disk.touched == WriteTargets(batch[..n]) && disk.special == old(disk.special) - disk.touched
        invariant BatchLog(old(disk.seen), disk.seen, start, batch)
        invariant Passed(disk.verdicts, start, batch, n)
        invariant InstallsSeen(old(disk.seen), disk.seen, start, batch, n)
        invariant Looked(disk.verdicts, since, disk.clock, disk.touched)
      {
        var p := batch[n];
        WriteCulprit(batch, n);
        WritesPlannable(start, v.root, batch, n, disk.tree, undos, disk.privileged);
        WriteTargetsTouched(start, v.root, batch, n);
        TargetsLonger(batch, n);
        TouchedOneMore(old(disk.special), disk.touched, p.abs);
        if p.operation == OpDelete {
          SkipWrite(start, v.root, batch, n, disk.tree, undos, disk.privileged);
          PassedDelete(disk.verdicts, start, batch, n);
          InstallsPassDelete(old(disk.seen), disk.seen, start, batch, n);
          continue;
        }
        ReadyToWrite(start, v.root, batch, n, disk.tree, undos, disk.privileged);
        ghost var goal := Frozen(start, batch, n, disk.privileged);
        RootStray(start, start);
        ghost var at := disk.clock;
        var context := disk.Ask(AskingContext);
        if context.Fault? {
          LookedStays(disk.verdicts, since, at, disk.clock, disk.touched);
          disk.RefusedIf();
          NothingLeft(goal, disk.tree, undos);
          FailedWrite(batch, n, disk.last);
          return undos, false, RelString(p.rel), n;
        }
        ghost var t, log, spared, touched := disk.tree, disk.seen, undos, disk.touched;
        LogGrows(old(disk.seen), log, start, batch);
        undos, ok := ApplyWrite(p, undos, goal);
        if ok {
          LookedAgain(disk.verdicts, since, at, disk.clock, touched, p.abs);
        } else {
          LookedStays(disk.verdicts, since, at, disk.clock, touched);
        }
        LogWrite(disk.verdicts, old(disk.seen), log, disk.seen, start, v.root, batch, n, t);
        MidwayGrows(log, disk.seen, t, p);
        InstallsStaySeen(old(disk.seen), log, disk.seen, start, batch, n);
        if !ok {
          FailedWrite(batch, n, disk.last);
          FrozenKinds(start, v.root, batch, n, disk.privileged);
          StrayAtStart(start, goal, t, disk.leaked);
          BlockedMeansConflict(start, v.root, batch, n, t);
          LeakyWrite(disk.verdicts, start, batch, n, t);
          CollidesInBatch(disk.suffixes, start, batch, n, t);
          return undos, false, RelString(p.rel), n;
        }
        PassedWrite(disk.verdicts, start, batch, n, t);
        InstallIsSeen(old(disk.seen), log, disk.seen, start, batch, n);
        NextWrite(start, v.root, batch, n, t, spared, undos, disk.privileged);
      }
      assert batch[..|batch|] == batch;
      WritesPlannable(start, v.root, batch, |batch|, disk.tree, undos, disk.privileged);
      WriteTargetsTouched(start, v.root, batch, |batch|);
      return undos, true, "", |batch|;
    }

    /** The delete loop, after every write. */
    method DeletePhase(batch: seq<PlannedOp>, undos: seq<Undo>, ghost start: Tree, ghost special: set<Path>,
                       ghost since: nat)
      returns (log: seq<Undo>, ok: bool, culprit: string)
      requires InDeletes(start, v.root, batch, 0, disk.tree, undos, disk.privileged)
      requires disk.leaked == [] && disk.touched == WriteTargets(batch) && disk.special == special - disk.touched
      requires WriteTargets(batch) <= Touches(batch)
      requires Looked(disk.verdicts, since, disk.clock, disk.touched)
      modifies disk
      ensures ok ==> InDeletes(start, v.root, batch, |batch|, disk.tree, log, disk.privileged)
      ensures ok ==> disk.touched == Touches(batch) && disk.faulted == old(disk.faulted)
      ensures ok && DoomedTargets(batch) != {} ==> SomeRemoval(disk.verdicts)
      ensures !ok ==> disk.faulted && disk.Refused() && !disk.last.MakingDir? && FailedAt(batch, |batch|, disk.last)
      ensures !ok ==> RolledBack(disk.tree, log) == AddDirs(Frozen(start, batch, |batch|, disk.privileged), [])
      ensures !ok ==> Culprit(batch, |batch|, culprit)
      ensures disk.touched <= Touches(batch)
      ensures disk.leaked == [] && disk.special == special - disk.touched
      ensures BatchLog(old(disk.seen), disk.seen, start, batch)
      ensures Looked(disk.verdicts, since, disk.clock, disk.touched)
    {
      hide *;
      log := undos;
      ghost var goal := Frozen(start, batch, |batch|, disk.privileged);
      LogStart(disk.seen, start, batch);
      RemovalsBegin(batch, disk.verdicts, since, special, disk.clock, disk.touched);
      for n := 0 to |batch|
        invariant InDeletes(start, v.root, batch, n, disk.tree, log, disk.privileged)
        invariant disk.leaked == [] && disk.faulted == old(disk.faulted)
        invariant Removals(batch, n, disk.verdicts, since, special, disk.clock, disk.touched, disk.special)
        invariant BatchLog(old(disk.seen), disk.seen, start, batch)
      {
        var p := batch[n];
        ghost var at := disk.clock;
        if p.operation != OpDelete || p.skipped {
          SkipDelete(start, v.root, batch, n, disk.tree, log, disk.privileged);
          RemovalsSkip(batch, n, disk.verdicts, since, special, at, disk.touched, disk.special);
          continue;
        }
        ReadyToDelete(start, v.root, batch, n, disk.tree, log, disk.privileged);
        FailedDelete(batch, n);
        DeleteCulprit(batch, n);
        NothingLeft(goal, disk.tree, log);
        var context := disk.Ask(AskingContext);
        RemovalsStop(batch, n, disk.verdicts, since, special, at, disk.clock, disk.touched, disk.special);
        if context.Fault? {
          disk.RefusedIf();
          return log, false, RelString(p.rel);
        }
        ghost var t, seen, touched, kept := disk.tree, disk.seen, disk.touched, disk.special;
        log, ok := ApplyDelete(p, log, goal);
        RemovalsStop(batch, n, disk.verdicts, since, special, at, disk.clock, touched, kept);
        if !ok {
          return log, false, RelString(p.rel);
        }
        RemovalsMore(batch, n, disk.verdicts, since, special, at, disk.clock, touched, kept);
        NextDelete(start, v.root, batch, n, t, log, disk.privileged);
        LogDelete(old(disk.seen), seen, start, v.root, batch, n + 1, disk.tree, log, disk.privileged);
      }
      AllTargets(start, v.root, batch, |batch|, disk.tree, log, disk.privileged);
      RemovalsEnd(batch, disk.verdicts, since, special, disk.clock, disk.touched, disk.special);
      return log, true, "";
    }
  }

  /** What the delete loop has done at operation `n` to the targets and their special mode bits. */
  ghost predicate Removals(batch: seq<PlannedOp>, n: nat, verdicts: Oracle, since: nat, special: set<Path>, clock: nat,
                           touched: set<Path>, kept: set<Path>) {
    && n <= |batch| && WriteTargets(batch) <= Touches(batch)
    && touched == WriteTargets(batch) + DoomedTargets(batch[..n])
    && kept == special - touched
    && (DoomedTargets(batch[..n]) != {} ==> SomeRemoval(verdicts))
    && Looked(verdicts, since, clock, touched)
  }

  lemma RemovalsBegin(batch: seq<PlannedOp>, verdicts: Oracle, since: nat, special: set<Path>, clock: nat,
                      touched: set<Path>)
    requires touched == WriteTargets(batch) <= Touches(batch) && Looked(verdicts, since, clock, touched)
    ensures Removals(batch, 0, verdicts, since, special, clock, touched, special - touched)
  {
    hide WriteTargets, DoomedTargets, Touches, Looked, SomeRemoval;
    NoTargets(batch);
  }

  lemma RemovalsSkip(batch: seq<PlannedOp>, n: nat, verdicts: Oracle, since: nat, special: set<Path>, clock: nat,
                     touched: set<Path>, kept: set<Path>)
    requires Removals(batch, n, verdicts, since, special, clock, touched, kept)
    requires n < |batch| && (batch[n].operation != OpDelete || batch[n].skipped)
    ensures Removals(batch, n + 1, verdicts, since, special, clock, touched, kept)
  {
    hide WriteTargets, DoomedTargets, Touches, Looked, SomeRemoval;
    DoomedTargetsLonger(batch, n);
  }

  lemma RemovalsStop(batch: seq<PlannedOp>, n: nat, verdicts: Oracle, since: nat, special: set<Path>, at: nat,
                     clock: nat, touched: set<Path>, kept: set<Path>)
    requires Removals(batch, n, verdicts, since, special, at, touched, kept) && at <= clock
    ensures touched <= Touches(batch) && kept == special - touched && Looked(verdicts, since, clock, touched)
  {
    hide WriteTargets, DoomedTargets, Touches, Looked, SomeRemoval;
    DoomedTargetsTouched(batch, n);
    LookedStays(verdicts, since, at, clock, touched);
  }

  lemma RemovalsMore(batch: seq<PlannedOp>, n: nat, verdicts: Oracle, since: nat, special: set<Path>, at: nat,
                     clock: nat, touched: set<Path>, kept: set<Path>)
    requires Removals(batch, n, verdicts, since, special, at, touched, kept)
    requires n < |batch| && batch[n].operation == OpDelete && !batch[n].skipped
    requires at < clock && verdicts(at, AskingContext).Proceed? && SomeRemoval(verdicts)
    ensures Removals(batch, n + 1, verdicts, since, special, clock, touched + {batch[n].abs}, kept - {batch[n].abs})
  {
    hide WriteTargets, DoomedTargets, Touches, Looked, SomeRemoval;
    DoomedTargetsLonger(batch, n);
    LookedAgain(verdicts, since, at, clock, touched, batch[n].abs);
  }

  lemma RemovalsEnd(batch: seq<PlannedOp>, verdicts: Oracle, since: nat, special: set<Path>, clock: nat,
                    touched: set<Path>, kept: set<Path>)
    requires Removals(batch, |batch|, verdicts, since, special, clock, touched, kept)
    requires WriteTargets(batch) + DoomedTargets(batch) == Touches(batch)
    ensures touched == Touches(batch) && kept == special - touched && Looked(verdicts, since, clock, touched)
    ensures DoomedTargets(batch) != {} ==> SomeRemoval(verdicts)
  {
    hide WriteTargets, DoomedTargets, Touches, Looked, SomeRemoval;
    assert batch[..|batch|] == batch;
  }

  lemma RolledBackStray(start: Tree, t: Tree, undos: seq<Undo>, leak: Path)
    requires Restores(start, t, undos) && Stray(start, t, leak)
    ensures RolledBack(AddDirs(t, leak), undos) == AddDirs(start, leak)
  {
  }

  lemma NothingLeft(start: Tree, t: Tree, undos: seq<Undo>)
    requires Restores(start, t, undos)
    ensures RolledBack(t, undos) == AddDirs(start, [])
  {
    hide RolledBack, AddDirs;
    RootStray(start, t);
    RootStray(start, start);
    RolledBackStray(start, t, undos, []);
  }

  lemma LiteralUp(t: Tree, abs: Path)
    requires Literal(t, abs)
    ensures Literal(t, Parent(abs))
  {
    var up := Parent(abs);
    assert forall n :: 0 <= n <= |up| ==> up[..n] == abs[..n];
    assert forall s :: s in up ==> s in abs;
  }

  lemma LogsMidwayShort(before: seq<Tree>, after: seq<Tree>, t: Tree, p: PlannedOp)
    requires WellFormed(t) && p.abs != [] && Grew(before, after, t, Parent(p.abs))
    requires after != before ==> Passable(t, Parent(p.abs))
    ensures MidwayLog(before, after, t, p)
  {
    forall i | |before| <= i < |after| ensures Midway(t, p, after[i]) {
      ChainMidway(t, p, after[i]);
    }
  }

  lemma ReadyMeans(t: Tree, p: PlannedOp)
    requires Ready(t, p)
    ensures p.abs != [] && p.operation != OpDelete && Literal(t, p.abs) && ProperNames(p.abs)
    ensures p.existed ==> p.abs in t && t[p.abs] == File(p.before, p.mode)
    ensures !p.existed ==> p.abs !in t || IsDir(t, p.abs)
    ensures Unblocked(t, p) <==> Passable(t, Parent(p.abs)) && !IsDir(t, p.abs)
    ensures Installed(t, p) == AddDirs(t, Parent(p.abs))[p.abs := NewFile(p)]
    ensures IsDir(t, p.abs) ==> p.abs in t
    ensures AddDirs(t, []) == t
  {
  }

  lemma LeakAbove(leak: Path, p: PlannedOp)
    ensures leak < Parent(p.abs) ==> leak < p.abs
  {
  }

  lemma DirUndoIs(t: Tree, undos: seq<Undo>, p: PlannedOp)
    ensures undos + DirUndo(t, p) ==
            if NewDirs(t, Parent(p.abs)) == [] then undos else undos + [UndoDirs(NewDirs(t, Parent(p.abs)))]
  {
    assert undos + [] == undos;
  }

  lemma StickExisted(p: PlannedOp, privileged: bool)
    ensures Sticks(p, privileged) ==> p.existed
  {
  }

  lemma AddedDirsWellFormed(t: Tree, dir: Path)
    requires WellFormed(t) && (dir in t || Passable(t, dir))
    ensures WellFormed(AddDirs(t, dir))
  {
    if dir !in t { AddDirsWellFormed(t, dir); }
  }

  lemma AfterDirs(t: Tree, p: PlannedOp)
    requires WellFormed(t) && p.abs != []
    requires Parent(p.abs) in t || Passable(t, Parent(p.abs))
    ensures var t1 := AddDirs(t, Parent(p.abs));
            && (p.abs in t1 <==> p.abs in t) && (p.abs in t ==> t1[p.abs] == t[p.abs])
            && (IsDir(t1, p.abs) <==> IsDir(t, p.abs))
            && (IsDir(t1, Parent(p.abs)) && ProperNames(p.abs) ==> Passable(t, Parent(p.abs)))
            && (!IsDir(t1, Parent(p.abs)) ==> !Passable(t, Parent(p.abs)))
  {
    var dir := Parent(p.abs);
    AddDirsAt(t, dir);
    assert !Above(p.abs, dir);
    if Passable(t, dir) { AboveItself(t, dir); }
    if dir in t && t[dir].Dir? && ProperNames(p.abs) {
      forall n | 0 <= n <= |dir| ensures dir[..n] in t && t[dir[..n]].Dir? {
        AncestorsAreDirs(t, dir, n);
        assert dir[..|dir|] == dir;
      }
      assert forall s :: s in dir ==> s in p.abs;
    }
  }

  function ChangesOf(planned: seq<PlannedOp>): seq<Change> {
    seq(|planned|, i requires 0 <= i < |planned| => planned[i].Change())
  }

  /** The path that a failure names: that of the write under way, or of a file to remove once all are written; and of
      any operation if none is yet. */
  ghost predicate Culprit(batch: seq<PlannedOp>, reached: nat, path: string) {
    exists p :: p in batch && path == RelString(p.rel)
                && (0 < reached < |batch| ==> p == batch[reached]) && (reached == |batch| ==> Deletes(p))
  }

  ghost predicate NamesAny(v: Validator, t: Tree, ops: seq<FileOp>, path: string) {
    exists i :: 0 <= i < |ops| && Resolve(v, t, ops[i].path).Success?
                && path == RelString(Resolve(v, t, ops[i].path).value.rel)
  }

  lemma OpIsNamed(v: Validator, t: Tree, ops: seq<FileOp>, i: nat)
    requires i < |ops| && Resolve(v, t, ops[i].path).Success?
    ensures NamesAny(v, t, ops, RelString(Resolve(v, t, ops[i].path).value.rel))
  {
    hide Resolve, RelString;
  }

  lemma PlanCulprit(v: Validator, start: Tree, ops: seq<FileOp>, path: string)
    requires WellFormed(start) && IsDir(start, v.root)
    requires NamesAny(v, start, ops, path) || Plan(v, start, ops).Failure?
    ensures Plan(v, start, ops).Success? ==> Culprit(Plan(v, start, ops).value, 0, path)
  {
    if Plan(v, start, ops).Success? {
      PlanOrders(v, start, ops);
      hide Plan, Resolve, RelString;
      var plan := Plan(v, start, ops).value;
      var i :| 0 <= i < |ops| && Resolve(v, start, ops[i].path).Success?
               && path == RelString(Resolve(v, start, ops[i].path).value.rel);
      assert Orders(v, start, ops[i], plan[i]);
      assert plan[i] in plan;
    }
  }

  lemma WriteCulprit(batch: seq<PlannedOp>, n: nat)
    requires n < |batch|
    ensures Culprit(batch, n, RelString(batch[n].rel))
  {
    hide RelString;
  }

  lemma DeleteCulprit(batch: seq<PlannedOp>, n: nat)
    requires n < |batch| && batch[n].operation == OpDelete && !batch[n].skipped
    ensures Culprit(batch, |batch|, RelString(batch[n].rel))
  {
    hide RelString;
  }

  /** Every operation is reported, in batch order. */
  ghost predicate Reported(v: Validator, start: Tree, ops: seq<FileOp>, changes: seq<Change>) {
    |changes| == |ops| && forall i :: 0 <= i < |ops| ==> Reports(v, start, ops[i], changes[i])
  }

  lemma PlanReported(v: Validator, start: Tree, ops: seq<FileOp>)
    requires WellFormed(start) && IsDir(start, v.root) && Plan(v, start, ops).Success?
    ensures Reported(v, start, ops, ChangesOf(Plan(v, start, ops).value))
  {
    PlanExact(v, start, ops);
    PlanOrders(v, start, ops);
    hide Plan, Reports, Orders, WellFormed, AllAccepted, NoSharedTarget, Classified, Distinct, Recorded;
    var plan := Plan(v, start, ops).value;
    forall i | 0 <= i < |ops|
      ensures Reports(v, start, ops[i], ChangesOf(plan)[i])
    {
      assert plan[i] in plan;
      ChangeReports(v, start, ops[i], plan[i]);
    }
  }

  method Changes(planned: seq<PlannedOp>) returns (changes: seq<Change>)
    ensures changes == ChangesOf(planned)
  {
    changes := [];
    for i := 0 to |planned|
      invariant |changes| == i && forall k :: 0 <= k < i ==> changes[k] == planned[k].Change()
    {
      changes := changes + [planned[i].Change()];
    }
  }

  lemma ClaimedLonger(planned: seq<PlannedOp>, p: PlannedOp)
    ensures forall abs :: Claimed(planned + [p], abs) <==> Claimed(planned, abs) || abs == p.abs
  {
    assert p in planned + [p];
    assert forall p' :: p' in planned + [p] <==> p' in planned || p' == p;
  }

  /** A batch whose first n operations have no plan has none, for the same reason. */
  lemma {:induction false} PlanStops(v: Validator, t: Tree, ops: seq<FileOp>, n: nat)
    requires n <= |ops|
    ensures Plan(v, t, ops[..n]).Failure? ==> Plan(v, t, ops) == Plan(v, t, ops[..n])
    decreases |ops|
  {
    if n == |ops| {
      assert ops[..n] == ops;
    } else {
      assert ops[..|ops| - 1][..n] == ops[..n];
      PlanStops(v, t, ops[..|ops| - 1], n);
    }
  }

  /** The targets a successful batch installs or removes. */
  ghost function Touches(batch: seq<PlannedOp>): set<Path> {
    set p | p in batch && !p.skipped :: p.abs
  }

  /** The batch reaches write `n`, and its parents are two or more missing directories with nothing in the
      way: a mkdir after the first can fail. */
  ghost predicate Leaky(start: Tree, batch: seq<PlannedOp>, n: nat) {
    && n < |batch| && IsWrite(batch[n])
    && Unhindered(start, batch, n + 1)
    && |NewDirs(WritesDone(start, batch, n), Parent(batch[n].abs))| > 1
  }

  /** What a failure leaves, `reached` writes into the batch: the start, but for writes that stick, and a chain
      of directories above the target of a leaky write. Without a plan nothing is touched. */
  ghost predicate LeftBehind(v: Validator, start: Tree, ops: seq<FileOp>, reached: nat, privileged: bool,
                             t: Tree, leaked: Path, touched: set<Path>) {
    var plan := Plan(v, start, ops);
    if plan.Failure? then t == start && leaked == [] && touched == {}
    else
      && reached <= |plan.value|
      && t == AddDirs(Frozen(start, plan.value, reached, privileged), leaked)
      && touched <= Touches(plan.value)
      && (leaked != [] ==>
            && Leaky(start, plan.value, reached)
            && leaked !in start && v.root < leaked < plan.value[reached].abs)
  }

  lemma LeftByPlan(v: Validator, start: Tree, ops: seq<FileOp>, privileged: bool)
    ensures LeftBehind(v, start, ops, 0, privileged, start, [], {})
  {
  }

  lemma LeftByBatch(v: Validator, start: Tree, ops: seq<FileOp>, batch: seq<PlannedOp>, reached: nat, privileged: bool,
                    leaked: Path, touched: set<Path>)
    requires Plan(v, start, ops) == Success(batch) && reached <= |batch| && touched <= Touches(batch)
    requires leaked != [] ==>
               Leaky(start, batch, reached) && leaked !in start && reached < |batch|
                   && v.root < leaked < batch[reached].abs
    ensures LeftBehind(v, start, ops, reached, privileged,
                       AddDirs(Frozen(start, batch, reached, privileged), leaked), leaked, touched)
  {
  }

  /** The first `n` operations were not in each other's way, and their mkdirs and renames went well. */
  ghost predicate Passed(verdicts: Oracle, start: Tree, batch: seq<PlannedOp>, n: nat) {
    && n <= |batch| && Unhindered(start, batch, n)
    && forall m :: 0 <= m < n && IsWrite(batch[m]) ==>
         && AllMade(verdicts, NewDirs(WritesDone(start, batch, m), Parent(batch[m].abs)))
         && Renamed(verdicts, batch[m].abs)
  }

  /** Where a failure with `reached` operations done has come from: the next operation is a write, or all writes
      are done and there is a file to remove. A failure before the first operation can also be one of planning. */
  ghost predicate FailedAt(batch: seq<PlannedOp>, reached: nat, last: Step) {
    && reached <= |batch|
    && (reached > 0 ==> if reached < |batch| then IsWrite(batch[reached]) else DoomedTargets(batch) != {})
    && (last.Renaming? ==> reached < |batch| && last.target == batch[reached].abs)
  }

  /** After each of the first `n` writes the tree was what the writes so far ask for. */
  ghost predicate InstallsSeen(before: seq<Tree>, after: seq<Tree>, start: Tree, batch: seq<PlannedOp>, n: nat) {
    && n <= |batch|
    && forall m :: 0 <= m < n && IsWrite(batch[m]) ==> SeenSince(before, after, WritesDone(start, batch, m + 1))
  }

  /** Write `n` is blocked by what the batch has done so far. */
  ghost predicate Stopped(start: Tree, batch: seq<PlannedOp>, n: nat) {
    n < |batch| && IsWrite(batch[n]) && !Unblocked(WritesDone(start, batch, n), batch[n])
  }

  ghost predicate ShapeLog(before: seq<Tree>, after: seq<Tree>, v: Validator, start: Tree, ops: seq<FileOp>) {
    && before <= after
    && forall i :: |before| <= i < |after| ==>
         Plan(v, start, ops).Success? && Shape(start, Plan(v, start, ops).value, after[i])
  }

  // ----- the two loops, on values -----

  ghost predicate InWrites(start: Tree, root: Path, batch: seq<PlannedOp>, n: nat, t: Tree, undos: seq<Undo>,
                           privileged: bool) {
    && Plannable(start, root, batch)
    && n <= |batch|
    && t == WritesDone(start, batch, n)
    && WellFormed(t)
    && Written(start, batch[..n], t)
    && Restores(Frozen(start, batch, n, privileged), t, undos)
    && SpareRest(start, batch, n, undos)
  }

  /** The log does nothing at the files no operation has come to yet. */
  ghost predicate SpareRest(start: Tree, batch: seq<PlannedOp>, n: nat, undos: seq<Undo>)
    requires n <= |batch|
  {
    forall q :: q in start && (forall m :: 0 <= m < n ==> batch[m].abs != q) ==> AllSpare(undos, q)
  }

  ghost predicate InDeletes(start: Tree, root: Path, batch: seq<PlannedOp>, n: nat, t: Tree, undos: seq<Undo>,
                            privileged: bool) {
    && Plannable(start, root, batch)
    && n <= |batch|
    && Written(start, batch, WritesDone(start, batch, |batch|))
    && PrefixFree(batch)
    && t == DeletesDone(WritesDone(start, batch, |batch|), batch, n)
    && WellFormed(t)
    && Restores(Frozen(start, batch, |batch|, privileged), t, undos)
  }

  ghost function WriteTargets(batch: seq<PlannedOp>): set<Path> {
    set p | p in batch && IsWrite(p) :: p.abs
  }

  ghost function DoomedTargets(batch: seq<PlannedOp>): set<Path> {
    set p | p in batch && Deletes(p) :: p.abs
  }

  ghost predicate BatchLog(before: seq<Tree>, after: seq<Tree>, start: Tree, batch: seq<PlannedOp>) {
    && before <= after
    && forall i :: |before| <= i < |after| ==> Shape(start, batch, after[i])
  }

  lemma NothingTouched(special: set<Path>)
    ensures special - {} == special
  {
  }

  lemma NoTargets(batch: seq<PlannedOp>)
    ensures WriteTargets(batch[..0]) == {} && DoomedTargets(batch[..0]) == {}
  {
  }

  lemma TouchedOneMore(special: set<Path>, touched: set<Path>, abs: Path)
    ensures (special - touched) - {abs} == special - (touched + {abs})
  {
  }

  lemma TargetsLonger(batch: seq<PlannedOp>, n: nat)
    requires n < |batch|
    ensures batch[n].operation == OpDelete ==> WriteTargets(batch[..n + 1]) == WriteTargets(batch[..n])
    ensures batch[n].operation != OpDelete ==> WriteTargets(batch[..n + 1]) == WriteTargets(batch[..n]) + {batch[n].abs}
  {
    assert batch[..n + 1] == batch[..n] + [batch[n]];
  }

  lemma DoomedTargetsLonger(batch: seq<PlannedOp>, n: nat)
    requires n < |batch|
    ensures batch[n].operation != OpDelete || batch[n].skipped ==>
              DoomedTargets(batch[..n + 1]) == DoomedTargets(batch[..n])
    ensures batch[n].operation == OpDelete && !batch[n].skipped ==>
              DoomedTargets(batch[..n + 1]) == DoomedTargets(batch[..n]) + {batch[n].abs}
  {
    assert batch[..n + 1] == batch[..n] + [batch[n]];
  }

  lemma LogGrows(before: seq<Tree>, after: seq<Tree>, start: Tree, batch: seq<PlannedOp>)
    requires BatchLog(before, after, start, batch)
    ensures before <= after
  {
  }

  lemma LogStart(log: seq<Tree>, start: Tree, batch: seq<PlannedOp>)
    ensures BatchLog(log, log, start, batch)
  {
  }

  lemma ShapeLogStart(log: seq<Tree>, v: Validator, start: Tree, ops: seq<FileOp>)
    ensures ShapeLog(log, log, v, start, ops)
  {
  }

  lemma WritesBegin(start: Tree, root: Path, batch: seq<PlannedOp>, privileged: bool)
    requires Plannable(start, root, batch)
    ensures InWrites(start, root, batch, 0, start, [], privileged)
  {
    assert batch[..0] == [] && Written(start, [], start);
    assert Restores(start, start, []);
  }

  lemma SkipWrite(start: Tree, root: Path, batch: seq<PlannedOp>, n: nat, t: Tree, undos: seq<Undo>, privileged: bool)
    requires InWrites(start, root, batch, n, t, undos, privileged) && n < |batch| && batch[n].operation == OpDelete
    ensures InWrites(start, root, batch, n + 1, t, undos, privileged)
  {
    WriteStep(start, root, batch, n, t);
    hide Restores, Written, WellFormed, AllSpare;
  }

  lemma NextWrite(start: Tree, root: Path, batch: seq<PlannedOp>, n: nat, t: Tree, before: seq<Undo>, undos: seq<Undo>,
                  privileged: bool)
    requires n < |batch| && batch[n].operation != OpDelete && Plannable(start, root, batch)
    requires t == WritesDone(start, batch, n) && WellFormed(t) && Written(start, batch[..n], t)
    requires Unblocked(t, batch[n])
    requires Restores(After(Frozen(start, batch, n, privileged), batch[n], privileged), Installed(t, batch[n]), undos)
    requires SpareRest(start, batch, n, before)
    requires forall q :: q in t && q != batch[n].abs && AllSpare(before, q) ==> AllSpare(undos, q)
    ensures InWrites(start, root, batch, n + 1, Installed(t, batch[n]), undos, privileged)
  {
    WriteStep(start, root, batch, n, t);
    StartIsIn(start, batch[..n], t);
    SpareNext(start, batch, n, t, before, undos);
    FrozenNext(start, batch, n, privileged);
    hide Restores, Written, WellFormed, AllSpare, SpareRest, Installed, Unblocked, Plannable, Sticks, Frozen, After,
         WritesDone;
  }

  lemma FrozenNext(start: Tree, batch: seq<PlannedOp>, n: nat, privileged: bool)
    requires n < |batch|
    ensures Frozen(start, batch, n + 1, privileged) == After(Frozen(start, batch, n, privileged), batch[n], privileged)
  {
  }

  lemma SpareNext(start: Tree, batch: seq<PlannedOp>, n: nat, t: Tree, before: seq<Undo>, undos: seq<Undo>)
    requires n < |batch| && SpareRest(start, batch, n, before)
    requires forall q :: q in start ==> q in t
    requires forall q :: q in t && q != batch[n].abs && AllSpare(before, q) ==> AllSpare(undos, q)
    ensures SpareRest(start, batch, n + 1, undos)
  {
    hide AllSpare;
  }

  lemma NodeOfTarget(start: Tree, root: Path, batch: seq<PlannedOp>, n: nat, t: Tree)
    requires Plannable(start, root, batch) && n < |batch| && Written(start, batch[..n], t)
    ensures WriteFor(batch[..n], batch[n].abs).None?
  {
    assert forall p :: p in batch[..n] ==> p.abs != batch[n].abs;
  }

  lemma ReadyToWrite(start: Tree, root: Path, batch: seq<PlannedOp>, n: nat, t: Tree, undos: seq<Undo>,
                     privileged: bool)
    requires InWrites(start, root, batch, n, t, undos, privileged) && n < |batch| && batch[n].operation != OpDelete
    ensures var goal, p := Frozen(start, batch, n, privileged), batch[n];
            && WellFormed(goal) && WellFormed(t) && Written(start, batch[..n], t) && Plannable(start, root, batch)
            && t == WritesDone(start, batch, n) && SpareRest(start, batch, n, undos)
            && Restores(goal, t, undos) && Kept(goal, t) && Ready(t, p) && p.abs != []
            && (Sticks(p, privileged) ==> p.abs in goal && goal[p.abs].File? && AllSpare(undos, p.abs))
            && (forall q :: q in goal <==> q in start)
  {
    var p := batch[n];
    assert Recorded(start, root, p);
    NodeOfTarget(start, root, batch, n, t);
    FrozenAt(start, root, batch, n, privileged);
    FrozenKinds(start, root, batch, n, privileged);
    assert forall m :: 0 <= m < n ==> batch[m].abs != p.abs;
    forall k | 0 <= k <= |p.abs| && p.abs[..k] in t
      ensures !t[p.abs[..k]].Symlink?
    {
      assert p.abs[..|p.abs|] == p.abs;
    }
    hide Frozen, AllSpare, Restores;
  }

  lemma WritesPlannable(start: Tree, root: Path, batch: seq<PlannedOp>, n: nat, t: Tree, undos: seq<Undo>,
                        privileged: bool)
    requires InWrites(start, root, batch, n, t, undos, privileged)
    ensures Plannable(start, root, batch)
  {
  }

  /** What sticks is a file where there was one. */
  lemma FrozenKinds(start: Tree, root: Path, batch: seq<PlannedOp>, n: nat, privileged: bool)
    requires Plannable(start, root, batch) && n <= |batch|
    ensures var frozen := Frozen(start, batch, n, privileged);
            forall q :: q in start ==> q in frozen && (frozen[q].Dir? <==> start[q].Dir?)
                                       && (frozen[q] != start[q] ==> frozen[q].File? && start[q].File?)
  {
    FrozenAt(start, root, batch, n, privileged);
    forall q | q in start
      ensures var frozen := Frozen(start, batch, n, privileged);
              q in frozen && (frozen[q].Dir? <==> start[q].Dir?)
                  && (frozen[q] != start[q] ==> frozen[q].File? && start[q].File?)
    {
      if m :| 0 <= m < n && batch[m].abs == q {
        assert Recorded(start, root, batch[m]);
      }
    }
  }

  lemma StrayAtStart(start: Tree, goal: Tree, t: Tree, leak: Path)
    requires Stray(goal, t, leak)
    requires forall q :: q in start ==> q in goal && (goal[q].Dir? ==> start[q].Dir?)
    ensures Stray(start, start, leak)
  {
  }

  lemma BlockedMeansConflict(start: Tree, root: Path, batch: seq<PlannedOp>, n: nat, t: Tree)
    requires Plannable(start, root, batch) && n < |batch| && batch[n].operation != OpDelete
             && Written(start, batch[..n], t)
    ensures !Unblocked(t, batch[n]) ==> !PrefixFree(batch)
  {
    if PrefixFree(batch) { PrefixFreeUnblocked(start, root, batch, n, t); }
  }

  lemma PassedNone(verdicts: Oracle, start: Tree, batch: seq<PlannedOp>)
    ensures Passed(verdicts, start, batch, 0)
  {
  }

  lemma PassedDelete(verdicts: Oracle, start: Tree, batch: seq<PlannedOp>, n: nat)
    requires Passed(verdicts, start, batch, n) && n < |batch| && batch[n].operation == OpDelete
    ensures Passed(verdicts, start, batch, n + 1)
  {
    hide AllMade, Unblocked, WritesDone, Renamed;
  }

  lemma PassedWrite(verdicts: Oracle, start: Tree, batch: seq<PlannedOp>, n: nat, t: Tree)
    requires Passed(verdicts, start, batch, n) && n < |batch| && t == WritesDone(start, batch, n)
    requires Unblocked(t, batch[n]) && AllMade(verdicts, NewDirs(t, Parent(batch[n].abs)))
    requires Renamed(verdicts, batch[n].abs)
    ensures Passed(verdicts, start, batch, n + 1)
  {
    hide AllMade, Unblocked, WritesDone, Renamed;
  }

  lemma LeakyWrite(verdicts: Oracle, start: Tree, batch: seq<PlannedOp>, n: nat, t: Tree)
    requires Passed(verdicts, start, batch, n) && n < |batch| && batch[n].operation != OpDelete
             && t == WritesDone(start, batch, n)
    requires WellFormed(t) && batch[n].abs != []
    ensures Passable(t, Parent(batch[n].abs)) && |NewDirs(t, Parent(batch[n].abs))| > 1 ==> Leaky(start, batch, n)
    ensures !Unblocked(t, batch[n]) ==> Stopped(start, batch, n)
  {
    hide AllMade, Renamed, Unblocked, WritesDone, WellFormed, Passable, NewDirs, Unhindered;
    MissingAbove(t, batch[n]);
    if Unblocked(t, batch[n]) { UnhinderedNext(start, batch, n); }
  }

  lemma UnhinderedNext(start: Tree, batch: seq<PlannedOp>, n: nat)
    requires n < |batch| && Unhindered(start, batch, n) && Unblocked(WritesDone(start, batch, n), batch[n])
    ensures Unhindered(start, batch, n + 1)
  {
    hide WritesDone, Unblocked;
  }

  lemma MissingAbove(t: Tree, p: PlannedOp)
    requires WellFormed(t) && p.abs != []
    ensures Passable(t, Parent(p.abs)) && NewDirs(t, Parent(p.abs)) != [] ==> Unblocked(t, p)
  {
    hide Passable;
    if IsDir(t, p.abs) {
      AncestorsAreDirs(t, p.abs, |p.abs| - 1);
    }
  }

  lemma CollidesInBatch(suffixes: nat -> string, start: Tree, batch: seq<PlannedOp>, n: nat, t: Tree)
    requires n < |batch| && batch[n].operation != OpDelete && WellFormed(t) && Written(start, batch[..n], t)
    ensures Collides(suffixes, AddDirs(t, Parent(batch[n].abs))) ==> NamesCollide(suffixes, start, batch)
  {
    var p := batch[n];
    if q, clock: nat :| q in AddDirs(t, Parent(p.abs)) && Named(q, suffixes, clock) {
      AddDirsAt(t, Parent(p.abs));
      if Above(q, Parent(p.abs)) {
        assert IsWrite(p) && Above(q, p.abs);
      } else if q !in start {
        assert Needed(batch[..n], q);
        assert forall p' :: p' in batch[..n] ==> p' in batch;
      }
      assert q in start || Needed(batch, q);
    }
  }

  lemma NothingReached(verdicts: Oracle, v: Validator, start: Tree, ops: seq<FileOp>, privileged: bool)
    ensures var plan := Plan(v, start, ops); plan.Success? ==>
              && Passed(verdicts, start, plan.value, 0) && Frozen(start, plan.value, 0, privileged) == start
              && {} <= Touches(plan.value)
    ensures AddDirs(start, []) == start
  {
  }

  lemma WriteTargetsTouched(start: Tree, root: Path, batch: seq<PlannedOp>, n: nat)
    requires Plannable(start, root, batch) && n <= |batch|
    ensures WriteTargets(batch[..n]) <= WriteTargets(batch) <= Touches(batch)
  {
    assert forall p :: p in batch[..n] ==> p in batch;
    assert forall p :: p in batch ==> Recorded(start, root, p);
  }

  lemma DoomedTargetsTouched(batch: seq<PlannedOp>, n: nat)
    requires n <= |batch| && WriteTargets(batch) <= Touches(batch)
    ensures WriteTargets(batch) + DoomedTargets(batch[..n]) <= Touches(batch)
  {
    assert forall p :: p in batch[..n] ==> p in batch;
  }

  lemma LeakBelowRoot(start: Tree, root: Path, batch: seq<PlannedOp>, n: nat, leak: Path)
    requires Plannable(start, root, batch) && IsDir(start, root)
    ensures n < |batch| && leak !in start && leak < batch[n].abs ==> root < leak
  {
    if n < |batch| && leak !in start && leak < batch[n].abs {
      var abs := batch[n].abs;
      assert Recorded(start, root, batch[n]);
      assert root == abs[..|root|] && leak == abs[..|leak|];
      if |leak| <= |root| {
        assert leak == root[..|leak|];
        AncestorsAreDirs(start, root, |leak|);
      }
    }
  }

  lemma LogWrite(verdicts: Oracle, before: seq<Tree>, middle: seq<Tree>, after: seq<Tree>, start: Tree, root: Path,
                 batch: seq<PlannedOp>, n: nat, t: Tree)
    requires BatchLog(before, middle, start, batch) && Passed(verdicts, start, batch, n)
    requires Plannable(start, root, batch) && n < |batch| && batch[n].operation != OpDelete
    requires t == WritesDone(start, batch, n) && MidwayLog(middle, after, t, batch[n])
    ensures BatchLog(before, after, start, batch)
  {
    hide Midway, Shape, WritesDone, Plannable, Unhindered;
    forall i | |before| <= i < |after| ensures Shape(start, batch, after[i]) {
      if i < |middle| {
        assert after[i] == middle[i];
      } else {
        MidwayShape(start, root, batch, n, after[i]);
      }
    }
  }

  lemma MidwayGrows(before: seq<Tree>, after: seq<Tree>, t: Tree, p: PlannedOp)
    requires MidwayLog(before, after, t, p)
    ensures before <= after
  {
  }

  lemma NoInstalls(log: seq<Tree>, start: Tree, batch: seq<PlannedOp>)
    ensures InstallsSeen(log, log, start, batch, 0)
  {
  }

  lemma InstallsStaySeen(before: seq<Tree>, middle: seq<Tree>, after: seq<Tree>, start: Tree, batch: seq<PlannedOp>,
                         n: nat)
    requires InstallsSeen(before, middle, start, batch, n) && middle <= after
    ensures InstallsSeen(before, after, start, batch, n)
  {
    hide WritesDone;
    forall m | 0 <= m < n && IsWrite(batch[m])
      ensures SeenSince(before, after, WritesDone(start, batch, m + 1))
    {
      var i :| |before| <= i < |middle| && middle[i] == WritesDone(start, batch, m + 1);
      assert after[i] == middle[i];
    }
  }

  lemma InstallsPassDelete(before: seq<Tree>, after: seq<Tree>, start: Tree, batch: seq<PlannedOp>, n: nat)
    requires InstallsSeen(before, after, start, batch, n) && n < |batch| && batch[n].operation == OpDelete
    ensures InstallsSeen(before, after, start, batch, n + 1)
  {
    hide WritesDone, SeenSince;
  }

  lemma InstallIsSeen(before: seq<Tree>, middle: seq<Tree>, after: seq<Tree>, start: Tree, batch: seq<PlannedOp>,
                      n: nat)
    requires InstallsSeen(before, after, start, batch, n) && before <= middle
    requires n < |batch| && batch[n].operation != OpDelete
    requires Latest(middle, after, Installed(WritesDone(start, batch, n), batch[n]))
    ensures InstallsSeen(before, after, start, batch, n + 1)
  {
    hide Installed;
    assert SeenSince(before, after, WritesDone(start, batch, n + 1));
    hide WritesDone, SeenSince;
  }

  lemma FailedWrite(batch: seq<PlannedOp>, n: nat, last: Step)
    requires n < |batch| && batch[n].operation != OpDelete
    requires last.Renaming? ==> last.target == batch[n].abs
    ensures FailedAt(batch, n, last)
  {
  }

  lemma FailedDelete(batch: seq<PlannedOp>, n: nat)
    requires n < |batch| && batch[n].operation == OpDelete && !batch[n].skipped
    ensures forall last: Step :: !last.Renaming? ==> FailedAt(batch, |batch|, last)
  {
    assert batch[n].abs in DoomedTargets(batch);
  }

  /** A failure of planning. */
  lemma FailedEarly(v: Validator, start: Tree, ops: seq<FileOp>, log: seq<Tree>, last: Step)
    requires !last.Renaming?
    ensures var plan := Plan(v, start, ops); plan.Success? ==>
              FailedAt(plan.value, 0, last) && InstallsSeen(log, log, start, plan.value, 0)
  {
  }

  lemma DeletesBegin(start: Tree, root: Path, batch: seq<PlannedOp>, t: Tree, undos: seq<Undo>, privileged: bool)
    requires InWrites(start, root, batch, |batch|, t, undos, privileged)
    ensures InDeletes(start, root, batch, 0, t, undos, privileged) && WriteTargets(batch) <= Touches(batch)
  {
    WriteTargetsTouched(start, root, batch, |batch|);
    assert batch[..|batch|] == batch;
    WrittenPrefixFree(start, batch, t);
  }

  lemma SkipDelete(start: Tree, root: Path, batch: seq<PlannedOp>, n: nat, t: Tree, undos: seq<Undo>, privileged: bool)
    requires InDeletes(start, root, batch, n, t, undos, privileged) && n < |batch|
             && (batch[n].operation != OpDelete || batch[n].skipped)
    ensures InDeletes(start, root, batch, n + 1, t, undos, privileged)
  {
  }

  /** The file a delete is about to remove is still as it was. */
  lemma DoomedStands(start: Tree, root: Path, batch: seq<PlannedOp>, n: nat)
    requires Plannable(start, root, batch) && Written(start, batch, WritesDone(start, batch, |batch|))
    requires n < |batch| && batch[n].operation == OpDelete && !batch[n].skipped
    ensures var p, t := batch[n], DeletesDone(WritesDone(start, batch, |batch|), batch, n);
            && p.abs != [] && p.abs in start && start[p.abs] == File(p.before, p.mode)
            && p.abs in t && t[p.abs] == start[p.abs]
  {
    var p := batch[n];
    assert Recorded(start, root, p);
    assert Doomed(batch, p.abs);
    DoomedIsFree(start, root, batch, p.abs);
    DeletesDoneAt(WritesDone(start, batch, |batch|), batch, n);
    WriteForNeeded(batch, p.abs);
    assert forall d :: d in batch[..n] ==> d.abs != p.abs;
    hide WritesDone, DeletesDone, WellFormed, SafePlace, WriteFor;
  }

  lemma ReadyToDelete(start: Tree, root: Path, batch: seq<PlannedOp>, n: nat, t: Tree, undos: seq<Undo>,
                      privileged: bool)
    requires InDeletes(start, root, batch, n, t, undos, privileged) && n < |batch|
             && batch[n].operation == OpDelete && !batch[n].skipped
    ensures var p := batch[n];
            var goal := Frozen(start, batch, |batch|, privileged);
            && WellFormed(t) && Restores(goal, t, undos) && p.abs != []
            && p.abs in t && t[p.abs] == File(p.before, p.mode)
            && p.abs in goal && goal[p.abs].File?
  {
    DoomedStands(start, root, batch, n);
    FrozenKinds(start, root, batch, |batch|, privileged);
    hide WellFormed, Restores, Written, Plannable, Frozen, WritesDone, DeletesDone, PrefixFree;
  }

  lemma NextDelete(start: Tree, root: Path, batch: seq<PlannedOp>, n: nat, t: Tree, undos: seq<Undo>, privileged: bool)
    requires n < |batch| && batch[n].operation == OpDelete && !batch[n].skipped
    requires exists before :: InDeletes(start, root, batch, n, t, before, privileged)
    requires Restores(Frozen(start, batch, |batch|, privileged), t - {batch[n].abs}, undos)
    ensures InDeletes(start, root, batch, n + 1, t - {batch[n].abs}, undos, privileged)
  {
    var before :| InDeletes(start, root, batch, n, t, before, privileged);
    ReadyToDelete(start, root, batch, n, t, before, privileged);
    FileGoneWellFormed(t, batch[n].abs);
  }

  lemma LogDelete(before: seq<Tree>, middle: seq<Tree>, start: Tree, root: Path, batch: seq<PlannedOp>, n: nat,
                  t: Tree, undos: seq<Undo>, privileged: bool)
    requires BatchLog(before, middle, start, batch) && InDeletes(start, root, batch, n, t, undos, privileged)
    ensures BatchLog(before, middle + [t], start, batch)
  {
    DeletingShape(start, root, batch, n);
  }

  lemma DeletesEnd(start: Tree, root: Path, batch: seq<PlannedOp>, t: Tree, undos: seq<Undo>, privileged: bool)
    requires InDeletes(start, root, batch, |batch|, t, undos, privileged)
    ensures t == Final(start, batch) && WellFormed(t) && PrefixFree(batch)
  {
  }

  lemma AllTargets(start: Tree, root: Path, batch: seq<PlannedOp>, n: nat, t: Tree, undos: seq<Undo>, privileged: bool)
    requires InDeletes(start, root, batch, n, t, undos, privileged)
    ensures WriteTargets(batch) + DoomedTargets(batch) == Touches(batch)
  {
    assert forall p :: p in batch ==> Recorded(start, root, p);
  }

  /** The log of the two phases together. */
  lemma LogOfBatch(before: seq<Tree>, middle: seq<Tree>, after: seq<Tree>, v: Validator, start: Tree, ops: seq<FileOp>,
                   batch: seq<PlannedOp>, reached: nat)
    requires Plan(v, start, ops) == Success(batch)
    requires BatchLog(before, middle, start, batch) && BatchLog(middle, after, start, batch)
    requires InstallsSeen(before, middle, start, batch, reached)
    ensures ShapeLog(before, after, v, start, ops) && InstallsSeen(before, after, start, batch, reached)
  {
    hide Plan, Shape, InstallsSeen;
    assert forall i :: 0 <= i < |middle| ==> middle[i] == after[i];
    InstallsStaySeen(before, middle, after, start, batch, reached);
  }

  lemma FrozenWellFormed(start: Tree, root: Path, batch: seq<PlannedOp>, n: nat, privileged: bool, leak: Path)
    requires Plannable(start, root, batch) && n <= |batch| && Stray(start, start, leak)
    ensures WellFormed(AddDirs(Frozen(start, batch, n, privileged), leak))
    ensures leak == [] || leak !in start
  {
    hide *;
    FrozenAt(start, root, batch, n, privileged);
    FrozenKinds(start, root, batch, n, privileged);
    StrayWellFormed(start, Frozen(start, batch, n, privileged), leak);
  }

  lemma StrayWellFormed(start: Tree, goal: Tree, leak: Path)
    requires WellFormed(goal) && Stray(start, start, leak)
    requires forall q :: q in goal <==> q in start
    requires forall q :: q in start && q in goal && start[q].Dir? ==> goal[q].Dir?
    ensures WellFormed(AddDirs(goal, leak))
    ensures leak == [] || leak !in start
  {
    if leak != [] { AddDirsWellFormed(goal, leak); }
  }
}
