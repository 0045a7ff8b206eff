/** The .gitignore filter: greedy `**` globs, and the last matching rule wins.
    `filepath.Match` is an arbitrary predicate `fnmatch`. */
module Gitignore {
  import opened Text

  type FnMatch = (string, string) -> bool

  datatype Rule = Rule(pattern: string, negate: bool, anchored: bool, dirOnly: bool, hasSlash: bool)

  // ----- strings.Index, strings.Split(s, "**") -----

  predicate OccursAt(part: string, s: string, k: nat) {
    k <= |s| && part <= s[k..]
  }

  function Index(s: string, part: string): (r: Option<nat>)
    ensures r.Some? ==> OccursAt(part, s, r.value) && forall k: nat :: k < r.value ==> !OccursAt(part, s, k)
    ensures r.None? ==> forall k: nat :: !OccursAt(part, s, k)
  {
    if part <= s then
      assert s[0..] == s;
      Some(0)
    else if s == "" then
      None
    else
      var rest := Index(s[1..], part);
      assert forall k: nat :: 1 <= k <= |s| ==> s[k..] == s[1..][k - 1..];
      assert forall k: nat :: 1 <= k <= |s| ==> OccursAt(part, s, k) == OccursAt(part, s[1..], k - 1);
      assert s[0..] == s;
      if rest.None? then None else Some(rest.value + 1)
  }

  function SplitStars(s: string): (parts: seq<string>)
    ensures parts != []
  {
    if s == "" then [""]
    else if "**" <= s then [""] + SplitStars(s[2..])
    else
      var rest := SplitStars(s[1..]);
      [[s[0]] + rest[0]] + rest[1..]
  }

  ghost predicate NoTripleStar(s: string) {
    forall k: nat :: !OccursAt("***", s, k)
  }

  /** The parts with `**` between them. */
  function Starred(parts: seq<string>): string {
    if parts == [] then ""
    else if |parts| == 1 then parts[0]
    else parts[0] + "**" + Starred(parts[1..])
  }

  lemma {:induction false} FirstPartLeads(s: string)
    ensures SplitStars(s)[0] <= s
  {
    if s != "" && !("**" <= s) {
      FirstPartLeads(s[1..]);
    }
  }

  lemma SplitStarsCons(s: string)
    requires s != ""
    ensures SplitStars(s) ==
            if "**" <= s then [""] + SplitStars(s[2..])
            else [[s[0]] + SplitStars(s[1..])[0]] + SplitStars(s[1..])[1..]
  {
  }

  ghost predicate NoStars(part: string) {
    forall k: nat :: !OccursAt("**", part, k)
  }

  /** Splitting at `**` cuts the pattern into parts that have none. */
  lemma {:induction false} SplitStarsExact(s: string)
    ensures Starred(SplitStars(s)) == s
    ensures forall part :: part in SplitStars(s) ==> NoStars(part)
  {
    if s == "" {
      assert NoStars("");
    } else {
      hide SplitStars;
      SplitStarsCons(s);
      if "**" <= s {
        var rest := SplitStars(s[2..]);
        SplitStarsExact(s[2..]);
        assert ([""] + rest)[1..] == rest;
        assert s == "" + "**" + s[2..];
        assert NoStars("");
      } else {
        var rest := SplitStars(s[1..]);
        SplitStarsExact(s[1..]);
        hide Starred, OccursAt, NoStars;
        StarredHead(s[0], rest);
        assert s == [s[0]] + s[1..];
        assert rest[0] in rest;
        NoStarsAhead(s, rest[0]);
      }
    }
  }

  lemma NoStarsAhead(s: string, part: string)
    requires s != "" && !("**" <= s) && part == SplitStars(s[1..])[0] && NoStars(part)
    ensures NoStars([s[0]] + part)
  {
    hide SplitStars, OccursAt;
    FirstPartLeads(s[1..]);
    FrontStars(s, part);
    forall k: nat
      ensures !OccursAt("**", [s[0]] + part, k)
    {
      OccursAhead(s[0], part, k);
    }
  }

  lemma FrontStars(s: string, part: string)
    requires s != "" && part <= s[1..] && !("**" <= s)
    ensures !("**" <= [s[0]] + part)
  {
    StarsLead(s);
    StarsLead([s[0]] + part);
    assert part != "" ==> part[0] == s[1];
  }

  lemma OccursAhead(c: char, part: string, k: nat)
    ensures OccursAt("**", [c] + part, k) <==>
            if k == 0 then "**" <= [c] + part else OccursAt("**", part, k - 1)
  {
    var first := [c] + part;
    if k == 0 {
      assert first[0..] == first;
    } else if k <= |first| {
      assert first[k..] == part[k - 1..];
    }
  }

  lemma StarsLead(s: string)
    ensures "**" <= s <==> |s| >= 2 && s[0] == '*' && s[1] == '*'
  {
  }

  lemma StarredHead(c: char, parts: seq<string>)
    requires parts != []
    ensures Starred([[c] + parts[0]] + parts[1..]) == [c] + Starred(parts)
  {
    assert ([[c] + parts[0]] + parts[1..])[1..] == parts[1..];
    if |parts| > 1 {
      assert ([c] + parts[0]) + "**" + Starred(parts[1..]) == [c] + (parts[0] + "**" + Starred(parts[1..]));
    }
  }

  // ----- the greedy matcher -----

  /** What is left of `rest` after matching parts[i..] greedily, each at its leftmost place. */
  function Greedy(parts: seq<string>, i: nat, rest: string): Option<string>
    requires i <= |parts|
    decreases |parts| - i
  {
    if i == |parts| then Some(rest)
    else if parts[i] == "" then Greedy(parts, i + 1, rest)
    else if i == 0 then
      if parts[0] <= rest then Greedy(parts, 1, rest[|parts[0]|..]) else None
    else
      match Index(rest, parts[i])
      case None => None
      case Some(k) => Greedy(parts, i + 1, rest[k + |parts[i]|..])
  }

  predicate Glob(fnmatch: FnMatch, pattern: string, name: string) {
    if Index(pattern, "**").None? then fnmatch(pattern, name)
    else
      var left := Greedy(SplitStars(pattern), 0, name);
      left.Some? && (EndsWith(pattern, "**") || left.value == "")
  }

  /** One turn of the loop: where in `rest` the match of parts[i] ends, if there is one. The first part
      must be a prefix; a later one matches at its leftmost place. */
  function PartEnd(parts: seq<string>, i: nat, rest: string): (r: Option<nat>)
    requires i < |parts|
    ensures r.Some? ==> r.value <= |rest|
  {
    if parts[i] == "" then Some(0)
    else if i == 0 then (if parts[0] <= rest then Some(|parts[0]|) else None)
    else
      var k := Index(rest, parts[i]);
      if k.None? then None else Some(k.value + |parts[i]|)
  }

  lemma GreedyEmpty(parts: seq<string>, i: nat, s: string)
    requires i < |parts| && parts[i] == ""
    ensures PartEnd(parts, i, s) == Some(0) && Greedy(parts, i, s) == Greedy(parts, i + 1, s)
  {
    hide Index, OccursAt;
  }

  lemma GreedyPrefix(parts: seq<string>, s: string)
    requires 0 < |parts| && parts[0] != ""
    ensures PartEnd(parts, 0, s) == if parts[0] <= s then Some(|parts[0]|) else None
    ensures Greedy(parts, 0, s) == if parts[0] <= s then Greedy(parts, 1, s[|parts[0]|..]) else None
  {
    hide Index, OccursAt;
  }

  lemma GreedyLater(parts: seq<string>, i: nat, s: string)
    requires 0 < i < |parts| && parts[i] != ""
    ensures var k, end := Index(s, parts[i]), PartEnd(parts, i, s);
            && (k.None? ==> end.None? && Greedy(parts, i, s).None?)
            && (k.Some? ==>
                 end == Some(k.value + |parts[i]|) && Greedy(parts, i, s) == Greedy(parts, i + 1, s[end.value..]))
  {
    hide Index, OccursAt;
  }

  lemma GreedyUnfolds(parts: seq<string>, i: nat, s: string)
    requires i < |parts|
    ensures Greedy(parts, i, s) ==
            var end := PartEnd(parts, i, s);
            if end.None? then None else Greedy(parts, i + 1, s[end.value..])
  {
    hide *;
    if parts[i] == "" {
      GreedyEmpty(parts, i, s);
      assert s[0..] == s;
    } else if i == 0 {
      GreedyPrefix(parts, s);
    } else {
      GreedyLater(parts, i, s);
    }
  }

  lemma GreedyStep(parts: seq<string>, i: nat, name: string, pos: nat)
    requires i < |parts| && pos <= |name|
    ensures Greedy(parts, i, name[pos..]) ==
            var end := PartEnd(parts, i, name[pos..]);
            if end.None? then None else Greedy(parts, i + 1, name[pos + end.value..])
  {
    hide *;
    var end := PartEnd(parts, i, name[pos..]);
    GreedyUnfolds(parts, i, name[pos..]);
    if end.Some? {
      assert name[pos..][end.value..] == name[pos + end.value..];
    }
  }

  lemma GreedyEnd(parts: seq<string>, rest: string)
    ensures Greedy(parts, |parts|, rest) == Some(rest)
  {
  }

  /** The loop of the matcher: how much of `name` the parts consume. */
  method MatchParts(parts: seq<string>, name: string) returns (end: Option<nat>)
    ensures end.Some? ==> end.value <= |name|
    ensures Greedy(parts, 0, name) == if end.None? then None else Some(name[end.value..])
  {
    hide Greedy;
    var pos := 0;
    assert name[pos..] == name;
    for i := 0 to |parts|
      invariant 0 <= pos <= |name|
      invariant Greedy(parts, 0, name) == Greedy(parts, i, name[pos..])
    {
      GreedyStep(parts, i, name, pos);
      var end := PartEnd(parts, i, name[pos..]);
      if end.None? {
        return None;
      }
      pos := pos + end.value;
    }
    GreedyEnd(parts, name[pos..]);
    return Some(pos);
  }

  method GlobMatch(fnmatch: FnMatch, pattern: string, name: string) returns (ok: bool)
    ensures ok == Glob(fnmatch, pattern, name)
  {
    var stars := Index(pattern, "**");
    if stars.None? {
      return fnmatch(pattern, name);
    }
    var end := MatchParts(SplitStars(pattern), name);
    return end.Some? && (EndsWith(pattern, "**") || end.value == |name|);
  }

  // ----- what a `**` pattern means -----

  /** `s` is parts[i], a gap, parts[i+1], ..., with a gap in front unless i is 0. */
  ghost predicate Spreads(parts: seq<string>, i: nat, s: string)
    requires i <= |parts|
    decreases |parts| - i
  {
    if i == |parts| then s == ""
    else exists g: nat :: SpreadsAt(parts, i, s, g)
  }

  ghost predicate SpreadsAt(parts: seq<string>, i: nat, s: string, g: nat)
    requires i < |parts|
    decreases |parts| - i, 0
  {
    && (i == 0 ==> g == 0)
    && OccursAt(parts[i], s, g)
    && Spreads(parts, i + 1, s[g + |parts[i]|..])
  }

  lemma WiderGap(parts: seq<string>, i: nat, pre: string, s: string)
    requires 0 < i < |parts| && Spreads(parts, i, s)
    ensures Spreads(parts, i, pre + s)
  {
    var g: nat :| SpreadsAt(parts, i, s, g);
    assert (pre + s)[|pre| + g..] == s[g..];
    assert (pre + s)[|pre| + g + |parts[i]|..] == s[g + |parts[i]|..];
    assert SpreadsAt(parts, i, pre + s, |pre| + g);
  }

  ghost predicate Decided(heads: seq<string>, tail: string, i: nat, s: string)
    requires i <= |heads|
  {
    Spreads(heads + [tail], i, s) <==> Greedy(heads, i, s).Some? && EndsWith(Greedy(heads, i, s).value, tail)
  }

  /** Taking every part but the last at its leftmost place decides the pattern's meaning: the name
      matches exactly if the last part then ends what is left. */
  lemma {:induction false} LeftmostDecides(heads: seq<string>, tail: string, i: nat, s: string)
    requires heads != [] && i <= |heads|
    ensures Decided(heads, tail, i, s)
    decreases |heads| - i
  {
    var parts := heads + [tail];
    if i == |heads| {
      if EndsWith(s, tail) {
        assert SpreadsAt(parts, i, s, |s| - |tail|);
      }
      if g: nat :| SpreadsAt(parts, i, s, g) {
        assert parts[i] == tail && Spreads(parts, i + 1, s[g + |tail|..]);
        assert s[g + |tail|..] == "";
        assert g == |s| - |tail|;
      }
    } else {
      assert parts[i] == heads[i];
      assert s[0..] == s;
      if heads[i] == "" {
        LeftmostDecides(heads, tail, i + 1, s);
        if Spreads(parts, i + 1, s) {
          assert SpreadsAt(parts, i, s, 0);
        }
        if g: nat :| SpreadsAt(parts, i, s, g) {
          assert s == s[..g] + s[g..];
          WiderGap(parts, i + 1, s[..g], s[g..]);
        }
      } else if i == 0 {
        if heads[0] <= s {
          LeftmostDecides(heads, tail, 1, s[|heads[0]|..]);
        }
        assert SpreadsAt(parts, 0, s, 0) <==> heads[0] <= s && Spreads(parts, 1, s[|heads[0]|..]);
      } else {
        var k := Index(s, heads[i]);
        if k.Some? { LeftmostDecides(heads, tail, i + 1, s[k.value + |heads[i]|..]); }
        LeftmostStep(heads, tail, i, s, k);
      }
    }
  }

  lemma LeftmostStep(heads: seq<string>, tail: string, i: nat, s: string, k: Option<nat>)
    requires 0 < i < |heads| && heads[i] != "" && k == Index(s, heads[i])
    requires k.Some? ==> Decided(heads, tail, i + 1, s[k.value + |heads[i]|..])
    ensures Decided(heads, tail, i, s)
  {
    assert (heads + [tail])[i] == heads[i];
    if k.None? {
      NoGap(heads + [tail], i, s);
    } else {
      EarliestGap(heads + [tail], i, s, k.value);
      hide Spreads, Index, OccursAt;
    }
  }

  lemma NoGap(parts: seq<string>, i: nat, s: string)
    requires i < |parts| && forall g: nat :: !OccursAt(parts[i], s, g)
    ensures !Spreads(parts, i, s)
  {
    assert forall g: nat :: !SpreadsAt(parts, i, s, g);
  }

  lemma EarliestGap(parts: seq<string>, i: nat, s: string, k: nat)
    requires 0 < i < |parts| - 1
    requires OccursAt(parts[i], s, k) && forall g: nat :: g < k ==> !OccursAt(parts[i], s, g)
    ensures Spreads(parts, i, s) <==> Spreads(parts, i + 1, s[k + |parts[i]|..])
  {
    var n := |parts[i]|;
    if Spreads(parts, i + 1, s[k + n..]) {
      assert SpreadsAt(parts, i, s, k);
    }
    if g: nat :| SpreadsAt(parts, i, s, g) {
      assert k <= g;
      assert s[k + n..] == s[k + n..g + n] + s[g + n..];
      WiderGap(parts, i + 1, s[k + n..g + n], s[g + n..]);
    }
  }

  lemma {:induction false} GreedyLast(heads: seq<string>, tail: string, i: nat, s: string)
    requires heads != [] && i <= |heads|
    ensures Greedy(heads + [tail], i, s) ==
            if Greedy(heads, i, s).None? then None
            else Greedy(heads + [tail], |heads|, Greedy(heads, i, s).value)
    decreases |heads| - i
  {
    if i < |heads| {
      var end := PartEnd(heads, i, s);
      assert end == PartEnd(heads + [tail], i, s) by {
        assert (heads + [tail])[i] == heads[i];
      }
      GreedyUnfolds(heads, i, s);
      GreedyUnfolds(heads + [tail], i, s);
      hide Greedy, PartEnd;
      if end.Some? {
        GreedyLast(heads, tail, i + 1, s[end.value..]);
      }
    }
  }

  lemma TailOfNoTriple(s: string, n: nat)
    requires NoTripleStar(s) && n <= |s|
    ensures NoTripleStar(s[n..])
  {
    forall k: nat | OccursAt("***", s[n..], k)
      ensures false
    {
      assert s[n..][k..] == s[n + k..];
      assert OccursAt("***", s, n + k);
    }
  }

  lemma EndsLater(s: string, n: nat)
    requires n + 2 <= |s|
    ensures EndsWith(s, "**") <==> EndsWith(s[n..], "**")
  {
    assert s[|s| - 2..] == s[n..][|s[n..]| - 2..];
  }

  lemma NoThirdStar(s: string)
    requires NoTripleStar(s) && "**" <= s && |s| == 3
    ensures !EndsWith(s, "**")
  {
    assert !OccursAt("***", s, 0) && s[0..] == s;
    assert s == "**" + [s[2]];
  }

  /** Without a run of three stars, the last part is empty exactly if the pattern ends in `**`. */
  lemma {:induction false} LastPart(s: string)
    requires NoTripleStar(s)
    ensures var parts := SplitStars(s); parts[|parts| - 1] == "" <==> s == "" || EndsWith(s, "**")
  {
    hide NoTripleStar, OccursAt, Starred;
    if s == "" {
      return;
    }
    SplitStarsCons(s);
    hide SplitStars;
    if "**" <= s {
      TailOfNoTriple(s, 2);
      LastPart(s[2..]);
      if |s| > 3 { EndsLater(s, 2); }
      if |s| == 3 { NoThirdStar(s); }
    } else {
      TailOfNoTriple(s, 1);
      LastPart(s[1..]);
      SoleOrLonger(s[1..]);
      if |s| > 2 { EndsLater(s, 1); }
    }
  }

  lemma {:induction false} SoleOrLonger(s: string)
    ensures |SplitStars(s)| == 1 ==> SplitStars(s) == [s] && !EndsWith(s, "**")
    ensures |SplitStars(s)| == 1 <==> Index(s, "**").None?
  {
    assert s[0..] == s;
    assert OccursAt("**", s, 0) <==> "**" <= s;
    if s != "" && !("**" <= s) {
      SoleOrLonger(s[1..]);
      assert s == [s[0]] + s[1..];
      assert forall k: nat :: 1 <= k <= |s| ==> s[k..] == s[1..][k - 1..];
      assert forall k: nat :: 1 <= k <= |s| ==> OccursAt("**", s, k) == OccursAt("**", s[1..], k - 1);
      if |s| > 2 { EndsLater(s, 1); }
    }
  }

  /** A `**` pattern without a run of three stars: the greedy matcher is sound; it is complete when
      the pattern ends in `**`; with a literal tail it is complete exactly when the tail's first
      occurrence in what the other parts leave is the one at the end. */
  lemma GlobMeaning(fnmatch: FnMatch, pattern: string, name: string)
    requires Index(pattern, "**").Some? && NoTripleStar(pattern)
    ensures Glob(fnmatch, pattern, name) ==> Spreads(SplitStars(pattern), 0, name)
    ensures EndsWith(pattern, "**") ==> (Glob(fnmatch, pattern, name) <==> Spreads(SplitStars(pattern), 0, name))
    ensures Spreads(SplitStars(pattern), 0, name) ==>
              var parts := SplitStars(pattern);
              var heads, tail := parts[..|parts| - 1], parts[|parts| - 1];
              var left := Greedy(heads, 0, name);
              && left.Some? && EndsWith(left.value, tail)
              && (Glob(fnmatch, pattern, name)
                  <==> tail == "" || Index(left.value, tail) == Some(|left.value| - |tail|))
  {
    LastPart(pattern);
    SoleOrLonger(pattern);
    var parts := SplitStars(pattern);
    var heads, tail := parts[..|parts| - 1], parts[|parts| - 1];
    assert parts == heads + [tail];
    LeftmostDecides(heads, tail, 0, name);
    GreedyLast(heads, tail, 0, name);
    hide SplitStars, Spreads, NoTripleStar;
    var left := Greedy(heads, 0, name);
    if left.Some? && tail != "" {
      var r := left.value;
      EndsWhereItOccurs(r, tail);
      GreedyUnfolds(parts, |heads|, r);
      if Index(r, tail).Some? {
        var k := Index(r, tail).value;
        if k + |tail| == |r| { assert r[k..] == tail; }
      }
    }
  }

  lemma EndsWhereItOccurs(s: string, part: string)
    ensures EndsWith(s, part) ==> OccursAt(part, s, |s| - |part|)
  {
  }

  /** The literal-tail gap is real: `**a` means "anything ending in a", yet the matcher refuses aba. */
  lemma LiteralTailIncomplete(fnmatch: FnMatch)
    ensures Spreads(SplitStars("**a"), 0, "aba") && !Glob(fnmatch, "**a", "aba")
  {
    var pattern, name := "**a", "aba";
    assert pattern[2..] == "a";
    SoleOrLonger("a");
    assert SplitStars(pattern) == ["", "a"];
    var parts := ["", "a"];
    assert name[2..] == "a" && name[2 + 1..] == "" && name[0..] == name;
    assert SpreadsAt(parts, 1, name, 2);
    assert SpreadsAt(parts, 0, name, 0);
    assert OccursAt("a", name, 0);
    assert Index(name, "a") == Some(0);
    assert Greedy(parts, 1, name) == Greedy(parts, 2, name[1..]);
    assert OccursAt("**", pattern, 0) by { assert pattern[0..] == pattern; }
  }

  // ----- rules -----

  predicate RuleHitsPath(fnmatch: FnMatch, r: Rule, candidate: string) {
    if r.hasSlash || r.anchored then Glob(fnmatch, r.pattern, candidate)
    else exists seg :: seg in Split(candidate, '/') && Glob(fnmatch, r.pattern, seg)
  }

  /** The paths a rule is tried on: the path itself, or for `dir/` rules its proper ancestors. */
  predicate RuleHits(fnmatch: FnMatch, r: Rule, rel: string) {
    if !r.dirOnly then RuleHitsPath(fnmatch, r, rel)
    else exists n :: 1 <= n < |Split(rel, '/')| && RuleHitsPath(fnmatch, r, Join(Split(rel, '/')[..n], '/'))
  }

  /** A pattern without `**` is left to the library, the pattern first and the name second. */
  lemma PlainGlob(fnmatch: FnMatch, pattern: string, name: string)
    requires NoStars(pattern)
    ensures Glob(fnmatch, pattern, name) <==> fnmatch(pattern, name)
  {
    hide OccursAt;
  }

  /** A rule with a slash in it is about the whole path ... */
  lemma PathRuleHits(fnmatch: FnMatch, r: Rule, rel: string)
    requires !r.dirOnly && (r.hasSlash || r.anchored)
    ensures RuleHits(fnmatch, r, rel) <==> Glob(fnmatch, r.pattern, rel)
  {
  }

  /** ... any other about a single name, anywhere on the path. */
  lemma NameRuleHits(fnmatch: FnMatch, r: Rule, rel: string)
    requires !r.dirOnly && !r.hasSlash && !r.anchored
    ensures RuleHits(fnmatch, r, rel) <==> exists name :: Stands(name, rel, '/') && Glob(fnmatch, r.pattern, name)
  {
    hide Glob, Stands, Split;
    forall name
      ensures name in Split(rel, '/') <==> Stands(name, rel, '/')
    {
      SplitMembers(rel, name, '/');
    }
  }

  ghost predicate Beneath(rel: string, dir: string) {
    exists rest :: rel == dir + "/" + rest
  }

  /** A rule that ends in a slash hits what lies beneath anything the same rule without it hits. */
  lemma DirRuleHits(fnmatch: FnMatch, r: Rule, rel: string)
    requires r.dirOnly
    ensures RuleHits(fnmatch, r, rel) <==>
            exists dir :: Beneath(rel, dir) && RuleHits(fnmatch, r.(dirOnly := false), dir)
  {
    hide RuleHitsPath;
    var parts, plain := Split(rel, '/'), r.(dirOnly := false);
    forall candidate
      ensures RuleHitsPath(fnmatch, r, candidate) <==> RuleHits(fnmatch, plain, candidate)
    {
      SlashAside(fnmatch, r, candidate);
    }
    if n :| 1 <= n < |parts| && RuleHitsPath(fnmatch, r, Join(parts[..n], '/')) {
      JoinOfSplit(rel, '/');
      assert parts == parts[..n] + parts[n..];
      JoinSum(parts[..n], parts[n..], '/');
      assert Beneath(rel, Join(parts[..n], '/'));
    }
    if dir :| Beneath(rel, dir) && RuleHits(fnmatch, plain, dir) {
      var rest :| rel == dir + "/" + rest;
      SplitSum(dir, rest, '/');
      JoinOfSplit(dir, '/');
      var n := |Split(dir, '/')|;
      assert parts[..n] == Split(dir, '/');
      assert RuleHitsPath(fnmatch, r, Join(parts[..n], '/'));
    }
  }

  lemma SlashAside(fnmatch: FnMatch, r: Rule, candidate: string)
    ensures RuleHitsPath(fnmatch, r, candidate) <==> RuleHits(fnmatch, r.(dirOnly := false), candidate)
  {
    hide Glob, Split;
  }

  /** Ignored means: some non-negated rule hits, and no negated rule after it does. */
  predicate Ignored(fnmatch: FnMatch, rules: seq<Rule>, rel: string) {
    exists k :: 0 <= k < |rules| && Decides(fnmatch, rules, rel, k) && !rules[k].negate
  }

  /** Rule k is the last one that hits. */
  predicate Decides(fnmatch: FnMatch, rules: seq<Rule>, rel: string, k: nat)
    requires k < |rules|
  {
    && RuleHits(fnmatch, rules[k], rel)
    && forall j :: k < j < |rules| ==> !RuleHits(fnmatch, rules[j], rel)
  }

  method Matches(fnmatch: FnMatch, r: Rule, rel: string) returns (hit: bool)
    ensures hit == RuleHits(fnmatch, r, rel)
  {
    var segments := Split(rel, '/');
    var candidates := [rel];
    if r.dirOnly {
      candidates := [];
      for i := 1 to |segments|
        invariant |candidates| == i - 1
        invariant forall n :: 1 <= n < i ==> candidates[n - 1] == Join(segments[..n], '/')
      {
        candidates := candidates + [Join(segments[..i], '/')];
      }
    }
    for c := 0 to |candidates|
      invariant forall n :: 0 <= n < c ==> !RuleHitsPath(fnmatch, r, candidates[n])
    {
      var candidate := candidates[c];
      if r.hasSlash || r.anchored {
        var ok := GlobMatch(fnmatch, r.pattern, candidate);
        if ok {
          assert r.dirOnly ==> candidate == Join(segments[..c + 1], '/');
          return true;
        }
        continue;
      }
      var segs := Split(candidate, '/');
      for j := 0 to |segs|
        invariant forall n :: 0 <= n < j ==> !Glob(fnmatch, r.pattern, segs[n])
      {
        var ok := GlobMatch(fnmatch, r.pattern, segs[j]);
        if ok {
          assert segs[j] in Split(candidate, '/');
          assert r.dirOnly ==> candidate == Join(segments[..c + 1], '/');
          return true;
        }
      }
    }
    if r.dirOnly {
      forall n | 1 <= n < |segments|
        ensures !RuleHitsPath(fnmatch, r, Join(segments[..n], '/'))
      {
        assert candidates[n - 1] == Join(segments[..n], '/');
      }
    } else {
      assert candidates[0] == rel;
    }
    return false;
  }

  method Match(fnmatch: FnMatch, rules: seq<Rule>, rel: string) returns (ignored: bool)
    ensures ignored == Ignored(fnmatch, rules, rel)
  {
    ignored := false;
    hide RuleHits;
    for i := 0 to |rules|
      invariant ignored == Ignored(fnmatch, rules[..i], rel)
    {
      var hit := Matches(fnmatch, rules[i], rel);
      LastRule(fnmatch, rules, rel, i);
      if hit {
        ignored := !rules[i].negate;
      }
    }
    assert rules[..|rules|] == rules;
  }

  lemma LastRule(fnmatch: FnMatch, rules: seq<Rule>, rel: string, i: nat)
    requires i < |rules|
    ensures Ignored(fnmatch, rules[..i + 1], rel) ==
            if RuleHits(fnmatch, rules[i], rel) then !rules[i].negate else Ignored(fnmatch, rules[..i], rel)
  {
    var before, after := rules[..i], rules[..i + 1];
    assert after[i] == rules[i];
    if RuleHits(fnmatch, rules[i], rel) {
      assert Decides(fnmatch, after, rel, i);
    } else {
      forall k | 0 <= k < i
        ensures Decides(fnmatch, after, rel, k) == Decides(fnmatch, before, rel, k)
      {
        assert after[k] == before[k];
        assert forall j :: k < j < i ==> after[j] == before[j];
        if Decides(fnmatch, before, rel, k) {
          forall j | k < j < i + 1
            ensures !RuleHits(fnmatch, after[j], rel)
          {
            if j < i { assert after[j] == before[j]; }
          }
        }
      }
      if Ignored(fnmatch, before, rel) {
        var k :| 0 <= k < |before| && Decides(fnmatch, before, rel, k) && !before[k].negate;
        assert Decides(fnmatch, after, rel, k) && !after[k].negate;
      }
    }
  }
}
