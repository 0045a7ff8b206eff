/** Go's path/filepath on slash-separated systems: Clean, Rel, Ext. */
module Paths {
  import opened Text

  /** A path after parsing: rooted or not, and its slash-separated segments. */
  datatype GoPath = GoPath(rooted: bool, segs: seq<string>)

  /** A name that denotes a directory entry, as opposed to "", "." and "..". */
  predicate ProperName(s: string) {
    s != "" && s != "." && s != ".." && '/' !in s
  }

  predicate ProperNames(segs: seq<string>) {
    forall s :: s in segs ==> ProperName(s)
  }

  // ----- Clean -----

  function CleanStep(rooted: bool, acc: seq<string>, seg: string): seq<string> {
    if seg == "" || seg == "." then acc
    else if seg != ".." then acc + [seg]
    else if acc != [] && acc[|acc| - 1] != ".." then acc[..|acc| - 1]
    else if rooted then acc
    else acc + [".."]
  }

  function CleanFrom(rooted: bool, acc: seq<string>, segs: seq<string>): seq<string>
    decreases |segs|
  {
    if segs == [] then acc
    else CleanFrom(rooted, CleanStep(rooted, acc, segs[0]), segs[1..])
  }

  function ParsePath(s: string): GoPath {
    var rooted := s != "" && s[0] == '/';
    GoPath(rooted, CleanFrom(rooted, [], Split(s, '/')))
  }

  function Render(p: GoPath): string {
    if p.rooted then "/" + Join(p.segs, '/')
    else if p.segs == [] then "."
    else Join(p.segs, '/')
  }

  function Clean(s: string): string {
    Render(ParsePath(s))
  }

  /** Canonical paths: dot-dot only in front, and never in a rooted path. */
  ghost predicate Canonical(p: GoPath) {
    exists ups: nat :: CanonicalAt(p, ups)
  }

  ghost predicate CanonicalAt(p: GoPath, ups: nat) {
    && ups <= |p.segs|
    && (p.rooted ==> ups == 0)
    && (forall i :: 0 <= i < ups ==> p.segs[i] == "..")
    && ProperNames(p.segs[ups..])
  }

  lemma StepCanonical(rooted: bool, acc: seq<string>, ups: nat, s: string) returns (ups': nat)
    requires CanonicalAt(GoPath(rooted, acc), ups) && '/' !in s
    ensures CanonicalAt(GoPath(rooted, CleanStep(rooted, acc, s)), ups')
  {
    var next := CleanStep(rooted, acc, s);
    var up := s == ".." && !rooted && (acc == [] || acc[|acc| - 1] == "..");
    ups' := if up then ups + 1 else ups;
    if |acc| > ups {
      assert acc[|acc| - 1] == acc[ups..][|acc| - ups - 1];
      assert acc[|acc| - 1] in acc[ups..];
      assert ProperName(acc[|acc| - 1]);
    }
    if up {
      assert |acc| == ups && ups' == |next|;
    } else if |next| > |acc| {
      assert next[ups..] == acc[ups..] + [s];
    } else if |next| < |acc| {
      assert next[ups..] == acc[ups..][..|acc| - 1 - ups];
    }
  }

  lemma {:induction false} CleanFromCanonical(rooted: bool, acc: seq<string>, ups: nat, segs: seq<string>)
    requires CanonicalAt(GoPath(rooted, acc), ups)
    requires forall s :: s in segs ==> '/' !in s
    ensures Canonical(GoPath(rooted, CleanFrom(rooted, acc, segs)))
    decreases |segs|
  {
    hide CanonicalAt, CleanStep;
    if segs != [] {
      assert segs[0] in segs;
      var ups' := StepCanonical(rooted, acc, ups, segs[0]);
      CleanFromCanonical(rooted, CleanStep(rooted, acc, segs[0]), ups', segs[1..]);
    }
  }

  lemma ParsePathCanonical(s: string)
    ensures Canonical(ParsePath(s))
  {
    var rooted := s != "" && s[0] == '/';
    assert CanonicalAt(GoPath(rooted, []), 0);
    CleanFromCanonical(rooted, [], 0, Split(s, '/'));
  }

  lemma StepKeeps(rooted: bool, all: seq<string>, k: nat, ups: nat)
    requires CanonicalAt(GoPath(rooted, all), ups) && k < |all|
    ensures CleanStep(rooted, all[..k], all[k]) == all[..k + 1]
  {
    if k >= ups {
      assert all[k] == all[ups..][k - ups];
      assert ProperName(all[k]);
    } else {
      assert all[k] == "..";
      assert k > 0 ==> all[k - 1] == "..";
    }
  }

  lemma {:induction false} CleanFromStable(rooted: bool, all: seq<string>, k: nat, ups: nat)
    requires CanonicalAt(GoPath(rooted, all), ups) && k <= |all|
    ensures CleanFrom(rooted, all[..k], all[k..]) == all
    decreases |all| - k
  {
    if k < |all| {
      StepKeeps(rooted, all, k, ups);
      assert all[k..][1..] == all[k + 1..];
      CleanFromStable(rooted, all, k + 1, ups);
    } else {
      assert all[..k] == all;
    }
  }

  lemma CanonicalSegments(p: GoPath, ups: nat)
    requires CanonicalAt(p, ups)
    ensures forall s :: s in p.segs ==> s != "" && s != "." && '/' !in s
  {
    forall s | s in p.segs
      ensures s != "" && s != "." && '/' !in s
    {
      var i :| 0 <= i < |p.segs| && p.segs[i] == s;
      if i >= ups {
        assert p.segs[ups..][i - ups] == s;
        assert s in p.segs[ups..];
      }
    }
  }

  lemma SplitOfRooted(rest: string)
    ensures Split("/" + rest, '/') == [""] + Split(rest, '/')
  {
    SplitAtFirst("", rest, '/');
    assert "" + ['/'] + rest == "/" + rest;
  }

  lemma ParseOfDot()
    ensures ParsePath(".") == GoPath(false, [])
  {
    SplitOfPlain(".", '/');
    assert CleanFrom(false, [], ["."]) == CleanFrom(false, [], []);
  }

  lemma ParseOfSlash()
    ensures ParsePath("/") == GoPath(true, [])
  {
    SplitOfRooted("");
    var parts := [""] + [""];
    assert parts[1..] == [""];
    assert CleanFrom(true, [], parts) == CleanFrom(true, [], [""]) == CleanFrom(true, [], []);
  }

  /** Printing a canonical path and parsing it back gives the same path. */
  lemma ParseOfRender(p: GoPath)
    requires Canonical(p)
    ensures ParsePath(Render(p)) == p
  {
    if p.segs == [] {
      ParseOfSlash();
      ParseOfDot();
    } else {
      ParseOfNonempty(p);
    }
  }

  lemma ParseOfNonempty(p: GoPath)
    requires Canonical(p) && p.segs != []
    ensures ParsePath(Render(p)) == p
  {
    var ups: nat :| CanonicalAt(p, ups);
    CanonicalSegments(p, ups);
    assert CleanFrom(p.rooted, [], p.segs) == p.segs by {
      CleanFromStable(p.rooted, p.segs, 0, ups);
      assert p.segs[..0] == [] && p.segs[0..] == p.segs;
    }
    hide CanonicalAt;
    var text := Join(p.segs, '/');
    assert Split(text, '/') == p.segs by { SplitOfJoin(p.segs, '/'); }
    if p.rooted {
      SplitOfRooted(text);
      assert ([""] + p.segs)[1..] == p.segs;
    } else {
      assert p.segs[0] in p.segs;
      assert text[0] == p.segs[0][0];
    }
  }

  /** Clean is idempotent: the parser's cleaned path survives the validator's second cleaning. */
  lemma CleanIdempotent(s: string)
    ensures ParsePath(Clean(s)) == ParsePath(s)
    ensures Clean(Clean(s)) == Clean(s)
  {
    ParsePathCanonical(s);
    ParseOfRender(ParsePath(s));
  }

  // ----- what cleaning means -----

  function Parent(at: seq<string>): seq<string> {
    if at == [] then [] else at[..|at| - 1]
  }

  /** Where the segments lead from the directory `at`, if every name on the way is a directory. */
  function Follow(at: seq<string>, segs: seq<string>): seq<string>
    decreases |segs|
  {
    if segs == [] then at
    else if segs[0] == "" || segs[0] == "." then Follow(at, segs[1..])
    else if segs[0] == ".." then Follow(Parent(at), segs[1..])
    else Follow(at + [segs[0]], segs[1..])
  }

  predicate IsRooted(raw: string) {
    raw != "" && raw[0] == '/'
  }

  lemma {:induction false} FollowSum(at: seq<string>, a: seq<string>, b: seq<string>)
    ensures Follow(at, a + b) == Follow(Follow(at, a), b)
    decreases |a|
  {
    if a == [] {
      assert a + b == b;
    } else {
      assert (a + b)[1..] == a[1..] + b;
      FollowSum(if a[0] == "" || a[0] == "." then at else if a[0] == ".." then Parent(at) else at + [a[0]], a[1..], b);
    }
  }

  lemma FollowOne(at: seq<string>, s: string)
    ensures Follow(at, [s]) == if s == "" || s == "." then at else if s == ".." then Parent(at) else at + [s]
  {
  }

  lemma {:induction false} FollowNames(at: seq<string>, names: seq<string>)
    requires ProperNames(names)
    ensures Follow(at, names) == at + names
    decreases |names|
  {
    if names == [] {
      assert at + names == at;
    } else {
      assert names[0] in names;
      FollowNames(at + [names[0]], names[1..]);
      assert at + names == (at + [names[0]]) + names[1..];
    }
  }

  lemma StepFollows(rooted: bool, acc: seq<string>, ups: nat, s: string, at: seq<string>)
    requires CanonicalAt(GoPath(rooted, acc), ups) && (rooted ==> at == [])
    ensures Follow(at, CleanStep(rooted, acc, s)) == Follow(Follow(at, acc), [s])
  {
    FollowOne(Follow(at, acc), s);
    FollowSum(at, acc, [s]);
    if rooted {
      assert acc[0..] == acc;
      assert acc != [] ==> acc[|acc| - 1] in acc;
    }
    if s == ".." && acc != [] && acc[|acc| - 1] != ".." {
      var before, last := acc[..|acc| - 1], acc[|acc| - 1];
      assert acc == before + [last];
      FollowSum(at, before, [last]);
      FollowOne(Follow(at, before), last);
      assert last == acc[ups..][|acc| - 1 - ups];
      assert ProperName(last);
      assert Parent(Follow(at, before) + [last]) == Follow(at, before);
    }
  }

  lemma {:induction false} CleanFromFollows(rooted: bool, acc: seq<string>, ups: nat, segs: seq<string>,
                                            at: seq<string>)
    requires CanonicalAt(GoPath(rooted, acc), ups) && (rooted ==> at == [])
    requires forall s :: s in segs ==> '/' !in s
    ensures Follow(at, CleanFrom(rooted, acc, segs)) == Follow(Follow(at, acc), segs)
    decreases |segs|
  {
    hide CanonicalAt, CleanStep;
    if segs != [] {
      assert segs[0] in segs;
      StepFollows(rooted, acc, ups, segs[0], at);
      var ups' := StepCanonical(rooted, acc, ups, segs[0]);
      CleanFromFollows(rooted, CleanStep(rooted, acc, segs[0]), ups', segs[1..], at);
      assert segs == [segs[0]] + segs[1..];
      FollowSum(Follow(at, acc), [segs[0]], segs[1..]);
    } else {
      assert CleanFrom(rooted, acc, segs) == acc;
    }
  }

  /** A path and its cleaned form lead to the same place from everywhere. */
  lemma CleanFollows(raw: string, at: seq<string>)
    requires IsRooted(raw) ==> at == []
    ensures Follow(at, ParsePath(raw).segs) == Follow(at, Split(raw, '/'))
  {
    assert CanonicalAt(GoPath(IsRooted(raw), []), 0);
    CleanFromFollows(IsRooted(raw), [], 0, Split(raw, '/'), at);
  }

  /** From deep enough, a canonical path drops the names it climbs over and appends its own. */
  lemma {:induction false} FollowCanonical(p: GoPath, ups: nat, at: seq<string>)
    requires CanonicalAt(p, ups) && ups <= |at|
    ensures Follow(at, p.segs) == at[..|at| - ups] + p.segs[ups..]
    decreases ups
  {
    if ups == 0 {
      assert p.segs[0..] == p.segs && at[..|at|] == at;
      FollowNames(at, p.segs);
    } else {
      var q := GoPath(p.rooted, p.segs[1..]);
      assert q.segs[ups - 1..] == p.segs[ups..];
      FollowCanonical(q, ups - 1, Parent(at));
      assert Parent(at)[..|Parent(at)| - (ups - 1)] == at[..|at| - ups];
    }
  }

  function Longest(segs: seq<string>): (n: nat)
    ensures forall s :: s in segs ==> |s| <= n
  {
    if segs == [] then 0
    else
      var n := Longest(segs[1..]);
      assert forall s :: s in segs ==> s == segs[0] || s in segs[1..];
      if |segs[0]| > n then |segs[0]| else n
  }

  ghost predicate SamePlaces(a: GoPath, b: GoPath) {
    forall at :: (a.rooted ==> at == []) ==> Follow(at, a.segs) == Follow(at, b.segs)
  }

  /** Canonical paths that lead to the same places are the same. */
  lemma CanonicalUnique(a: GoPath, b: GoPath)
    requires Canonical(a) && Canonical(b) && a.rooted == b.rooted && SamePlaces(a, b)
    ensures a == b
  {
    var m: nat :| CanonicalAt(a, m);
    var n: nat :| CanonicalAt(b, n);
    Ups(a, m);
    Ups(b, n);
    assert a.rooted ==> Follow([], a.segs) == Follow([], b.segs);
    hide Canonical, CanonicalAt, Follow, Longest;
    var novel := NovelName(a.segs + b.segs);
    NotIn(novel, a.segs, b.segs);
    var at := if a.rooted then [] else seq(m + n, i => novel);
    FollowCanonical(a, m, at);
    FollowCanonical(b, n, at);
    assert Follow(at, a.segs) == Follow(at, b.segs);
    FreshFront(m, n, at, a.segs, b.segs, novel);
    SameParts(a.segs, b.segs, m);
  }

  lemma NovelName(segs: seq<string>) returns (name: string)
    ensures name !in segs
  {
    name := seq(Longest(segs) + 1, i => 'x');
  }

  lemma NotIn(name: string, a: seq<string>, b: seq<string>)
    requires name !in a + b
    ensures name !in a && name !in b
  {
    assert forall s :: s in a || s in b ==> s in a + b;
  }

  lemma SameParts(a: seq<string>, b: seq<string>, m: nat)
    requires m <= |a| && m <= |b| && a[m..] == b[m..] && forall i :: 0 <= i < m ==> a[i] == b[i]
    ensures a == b
  {
    assert a == a[..m] + a[m..] && b == b[..m] + b[m..];
  }

  lemma Ups(p: GoPath, ups: nat)
    requires CanonicalAt(p, ups)
    ensures ups <= |p.segs| && (p.rooted ==> ups == 0) && forall i :: 0 <= i < ups ==> p.segs[i] == ".."
  {
  }

  lemma FreshFront(m: nat, n: nat, at: seq<string>, a: seq<string>, b: seq<string>, novel: string)
    requires m <= |a| && n <= |b| && m <= |at| && n <= |at| && novel !in a && novel !in b
    requires forall i :: 0 <= i < |at| ==> at[i] == novel
    requires at[..|at| - m] + a[m..] == at[..|at| - n] + b[n..]
    ensures m == n && a[m..] == b[n..]
  {
    Differ(m, n, at, a, b, novel);
    Differ(n, m, at, b, a, novel);
    assert (at[..|at| - m] + a[m..])[|at| - m..] == a[m..];
    assert (at[..|at| - n] + b[n..])[|at| - n..] == b[n..];
  }

  lemma Differ(m: nat, n: nat, at: seq<string>, a: seq<string>, b: seq<string>, novel: string)
    requires m <= |a| && n <= |b| && m <= |at| && n <= |at| && novel !in b
    requires forall i :: 0 <= i < |at| ==> at[i] == novel
    ensures m < n ==> at[..|at| - m] + a[m..] != at[..|at| - n] + b[n..]
  {
    var left, right := at[..|at| - m] + a[m..], at[..|at| - n] + b[n..];
    if m < n && |left| == |right| {
      assert right[|at| - n] == b[n] && b[n] in b;
      assert left[|at| - n] == novel;
    }
  }

  /** From everywhere, `p` leads to where the path itself leads. */
  ghost predicate LeadsAlike(p: GoPath, raw: string) {
    forall at :: (p.rooted ==> at == []) ==> Follow(at, p.segs) == Follow(at, Split(raw, '/'))
  }

  /** The cleaned form of a path is the one canonical path, rooted if it is, that leads from everywhere to where the
      path itself leads. */
  lemma CleanMeans(raw: string, p: GoPath)
    ensures ParsePath(raw) == p <==> Canonical(p) && p.rooted == IsRooted(raw) && LeadsAlike(p, raw)
  {
    ParsePathCanonical(raw);
    var q := ParsePath(raw);
    assert q.rooted == IsRooted(raw);
    forall at | q.rooted ==> at == []
      ensures Follow(at, q.segs) == Follow(at, Split(raw, '/'))
    {
      CleanFollows(raw, at);
    }
    hide ParsePath, Canonical, Follow, Split;
    if Canonical(p) && p.rooted == IsRooted(raw) && LeadsAlike(p, raw) {
      assert SamePlaces(p, q);
      CanonicalUnique(p, q);
    }
  }

  /** How a cleaned path is spelled: its segments with single slashes between, "." or "/" if there are none. */
  lemma CleanSpelled(raw: string)
    ensures var p := ParsePath(raw);
            && (p.segs == [] ==> Clean(raw) == if p.rooted then "/" else ".")
            && (p.segs != [] ==> Split(Clean(raw), '/') == (if p.rooted then [""] else []) + p.segs)
  {
    var p := ParsePath(raw);
    if p.segs != [] {
      ParsePathCanonical(raw);
      var ups: nat :| CanonicalAt(p, ups);
      CanonicalSegments(p, ups);
      SplitOfJoin(p.segs, '/');
      if p.rooted { SplitOfRooted(Join(p.segs, '/')); }
      assert [] + p.segs == p.segs;
    }
    hide ParsePath, Split;
  }

  // ----- Rel on two rooted, canonical paths -----

  function CommonPrefix(a: seq<string>, b: seq<string>): (n: nat)
    ensures n <= |a| && n <= |b| && a[..n] == b[..n]
    ensures n < |a| && n < |b| ==> a[n] != b[n]
  {
    if a != [] && b != [] && a[0] == b[0] then
      var n := CommonPrefix(a[1..], b[1..]);
      assert a[..n + 1] == [a[0]] + a[1..][..n] && b[..n + 1] == [b[0]] + b[1..][..n];
      n + 1
    else 0
  }

  function Rel(base: seq<string>, target: seq<string>): seq<string> {
    var n := CommonPrefix(base, target);
    seq(|base| - n, i => "..") + target[n..]
  }

  // ----- Ext -----

  /** The suffix of `s` that starts at its last dot, if any follows the last slash. */
  function Ext(s: string): string {
    if s == "" || s[|s| - 1] == '/' then ""
    else if s[|s| - 1] == '.' then "."
    else
      var e := Ext(s[..|s| - 1]);
      if e == "" then "" else e + [s[|s| - 1]]
  }

  predicate Plain(e: string) {
    '.' !in e && '/' !in e
  }

  /** The extension of `stem.e` is `.e`, for an `e` without dots and slashes, and there are no others. */
  lemma {:induction false} ExtMeans(s: string, e: string)
    requires Plain(e)
    ensures Ext(s) == "." + e <==> EndsWith(s, "." + e)
    decreases |s|
  {
    var n := |s| - 1;
    if n >= 0 && s[n] != '/' && s[n] != '.' {
      ExtShape(s[..n]);
      if e != "" {
        ExtMeans(s[..n], e[..|e| - 1]);
        assert e == e[..|e| - 1] + [e[|e| - 1]];
        assert "." + e == ("." + e[..|e| - 1]) + [e[|e| - 1]];
        LastCut(s, "." + e);
        if Ext(s) == "." + e { assert Ext(s[..n]) == Ext(s)[..|Ext(s)| - 1]; }
      }
    } else if n >= 0 && EndsWith(s, "." + e) {
      assert ("." + e)[|e|] == s[n];
    }
  }

  lemma LastCut(s: string, suffix: string)
    requires s != "" && suffix != ""
    ensures EndsWith(s, suffix) <==>
            s[|s| - 1] == suffix[|suffix| - 1] && EndsWith(s[..|s| - 1], suffix[..|suffix| - 1])
  {
    if |suffix| <= |s| {
      var tail := s[|s| - |suffix|..];
      assert tail == tail[..|suffix| - 1] + [s[|s| - 1]];
      assert tail[..|suffix| - 1] == s[..|s| - 1][|s| - |suffix|..];
      assert suffix == suffix[..|suffix| - 1] + [suffix[|suffix| - 1]];
    }
  }

  lemma {:induction false} ExtShape(s: string)
    ensures Ext(s) == "" || (Ext(s)[0] == '.' && Plain(Ext(s)[1..]))
  {
    if s != "" && s[|s| - 1] != '/' && s[|s| - 1] != '.' {
      ExtShape(s[..|s| - 1]);
      var e := Ext(s[..|s| - 1]);
      if e != "" { assert (e + [s[|s| - 1]])[1..] == e[1..] + [s[|s| - 1]]; }
    }
  }

  function LowerChar(c: char): char {
    if 'A' <= c <= 'Z' then (c as int + 32) as char else c
  }

  function ToLower(s: string): (r: string)
    ensures |r| == |s| && forall i :: 0 <= i < |s| ==> r[i] == LowerChar(s[i])
  {
    seq(|s|, i requires 0 <= i < |s| => LowerChar(s[i]))
  }

  /** Letter by letter. */
  lemma LowerLetters(c: char)
    ensures forall i :: 0 <= i < 26 ==>
              LowerChar("ABCDEFGHIJKLMNOPQRSTUVWXYZ"[i]) == "abcdefghijklmnopqrstuvwxyz"[i]
    ensures c !in "ABCDEFGHIJKLMNOPQRSTUVWXYZ" ==> LowerChar(c) == c
  {
    var upper := "ABCDEFGHIJKLMNOPQRSTUVWXYZ";
    assert forall i :: 0 <= i < 26 ==> upper[i] == (i + 65) as char;
    if 'A' <= c <= 'Z' { assert upper[c as int - 65] == c; }
  }
}
