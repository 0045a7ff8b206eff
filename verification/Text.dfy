/** Strings as the gateway sees them: sequences of bytes, one `char` a byte. */
module Text {

  datatype Option<+T> = None | Some(value: T)

  datatype Result<+T, +E> = Success(value: T) | Failure(error: E)

  // ----- white space -----

  predicate IsSpace(c: char) {
    c == ' ' || c == '\t' || c == '\n' || c == '\r' || c == '\U{0B}' || c == '\U{0C}'
  }

  function TrimLeft(s: string): string {
    if s != "" && IsSpace(s[0]) then TrimLeft(s[1..]) else s
  }

  function TrimRight(s: string): string {
    if s != "" && IsSpace(s[|s| - 1]) then TrimRight(s[..|s| - 1]) else s
  }

  function TrimSpace(s: string): string {
    TrimRight(TrimLeft(s))
  }

  predicate Trimmed(s: string) {
    s == "" || (!IsSpace(s[0]) && !IsSpace(s[|s| - 1]))
  }

  lemma TrimmedIsFixed(s: string)
    requires Trimmed(s)
    ensures TrimSpace(s) == s
  {
  }

  lemma {:induction false} TrimRightKeepsHead(s: string)
    ensures TrimRight(s) <= s
    ensures TrimRight(s) == "" || !IsSpace(TrimRight(s)[|TrimRight(s)| - 1])
  {
    if s != "" && IsSpace(s[|s| - 1]) {
      TrimRightKeepsHead(s[..|s| - 1]);
    }
  }

  lemma {:induction false} TrimLeftHead(s: string)
    ensures TrimLeft(s) == "" || !IsSpace(TrimLeft(s)[0])
  {
    if s != "" && IsSpace(s[0]) {
      TrimLeftHead(s[1..]);
    }
  }

  /** What trimming leaves has no space at either end. */
  lemma TrimSpaceTrims(s: string)
    ensures Trimmed(TrimSpace(s))
  {
    TrimLeftHead(s);
    TrimRightKeepsHead(TrimLeft(s));
  }

  /** Nothing but blanks, tabs, line ends, vertical tabs and form feeds. */
  predicate Blank(s: string) {
    forall c :: c in s ==> c in " \t\n\r\U{0B}\U{0C}"
  }

  ghost predicate Padded(s: string, r: string) {
    exists before, after :: PaddedBy(s, r, before, after)
  }

  ghost predicate PaddedBy(s: string, r: string, before: string, after: string) {
    Blank(before) && Blank(after) && s == before + r + after
  }

  lemma BlankJoins(a: string, b: string)
    requires Blank(a) && Blank(b)
    ensures Blank(a + b)
  {
  }

  lemma SpaceIsBlank(c: char)
    requires IsSpace(c)
    ensures Blank([c])
  {
  }

  lemma NothingIsBlank()
    ensures Blank("")
  {
  }

  lemma {:induction false} TrimLeftTakesBlank(s: string) returns (before: string)
    ensures Blank(before) && s == before + TrimLeft(s)
  {
    hide Blank, IsSpace;
    NothingIsBlank();
    if s != "" && IsSpace(s[0]) {
      var more := TrimLeftTakesBlank(s[1..]);
      SpaceIsBlank(s[0]);
      BlankJoins([s[0]], more);
      before := [s[0]] + more;
      assert s == [s[0]] + s[1..];
    } else {
      before := "";
    }
  }

  lemma {:induction false} TrimRightTakesBlank(s: string) returns (after: string)
    ensures Blank(after) && s == TrimRight(s) + after
  {
    hide Blank, IsSpace;
    NothingIsBlank();
    if s != "" && IsSpace(s[|s| - 1]) {
      var last := [s[|s| - 1]];
      var more := TrimRightTakesBlank(s[..|s| - 1]);
      SpaceIsBlank(s[|s| - 1]);
      BlankJoins(more, last);
      after := more + last;
      assert s == s[..|s| - 1] + last;
    } else {
      after := "";
    }
  }

  lemma {:induction false} TrimLeftOfPadded(before: string, r: string)
    requires Blank(before) && (r != "" ==> !IsSpace(r[0]))
    ensures TrimLeft(before + r) == r
  {
    if before == "" {
      assert before + r == r;
    } else {
      assert before[0] in before;
      assert (before + r)[1..] == before[1..] + r;
      TrimLeftOfPadded(before[1..], r);
    }
  }

  lemma {:induction false} TrimRightOfPadded(r: string, after: string)
    requires Blank(after) && (r != "" ==> !IsSpace(r[|r| - 1]))
    ensures TrimRight(r + after) == r
  {
    if after == "" {
      assert r + after == r;
    } else {
      assert after[|after| - 1] in after;
      assert (r + after)[..|r + after| - 1] == r + after[..|after| - 1];
      TrimRightOfPadded(r, after[..|after| - 1]);
    }
  }

  lemma {:induction false} TrimRightKeeps(s: string, rest: string)
    requires s != "" && !IsSpace(s[|s| - 1])
    ensures s <= TrimRight(s + rest)
    decreases |rest|
  {
    if rest == "" {
      assert s + rest == s;
    } else {
      assert (s + rest)[..|s + rest| - 1] == s + rest[..|rest| - 1];
      TrimRightKeeps(s, rest[..|rest| - 1]);
    }
  }

  /** Trimming takes away the blanks at both ends, all of them, and nothing else. */
  lemma TrimSpaceExact(s: string, r: string)
    ensures TrimSpace(s) == r <==> Trimmed(r) && Padded(s, r)
  {
    var before := TrimLeftTakesBlank(s);
    var after := TrimRightTakesBlank(TrimLeft(s));
    TrimSpaceTrims(s);
    assert PaddedBy(s, TrimSpace(s), before, after);
    if Trimmed(r) && Padded(s, r) {
      var before, after :| PaddedBy(s, r, before, after);
      hide PaddedBy, IsSpace;
      PaddedTrims(r, before, after);
    }
  }

  lemma PaddedTrims(r: string, before: string, after: string)
    requires Trimmed(r) && Blank(before) && Blank(after)
    ensures TrimSpace(before + r + after) == r
  {
    if r == "" {
      assert before + r + after == (before + after) + "";
      assert Blank(before + after);
      TrimLeftOfPadded(before + after, "");
    } else {
      assert before + r + after == before + (r + after);
      TrimLeftOfPadded(before, r + after);
      TrimRightOfPadded(r, after);
    }
  }

  predicate EndsWith(s: string, suffix: string) {
    |suffix| <= |s| && s[|s| - |suffix|..] == suffix
  }

  // ----- splitting and joining -----

  function Split(s: string, sep: char): (parts: seq<string>)
    ensures parts != []
    ensures forall p :: p in parts ==> sep !in p
  {
    if s == "" then [""]
    else if s[0] == sep then [""] + Split(s[1..], sep)
    else
      var rest := Split(s[1..], sep);
      [[s[0]] + rest[0]] + rest[1..]
  }

  function Join(parts: seq<string>, sep: char): string {
    if parts == [] then ""
    else if |parts| == 1 then parts[0]
    else parts[0] + [sep] + Join(parts[1..], sep)
  }

  lemma JoinHead(c: char, parts: seq<string>, sep: char)
    requires parts != []
    ensures Join([[c] + parts[0]] + parts[1..], sep) == [c] + Join(parts, sep)
  {
    assert ([[c] + parts[0]] + parts[1..])[1..] == parts[1..];
  }

  lemma {:induction false} JoinOfSplit(s: string, sep: char)
    ensures Join(Split(s, sep), sep) == s
  {
    if s != "" {
      var rest := Split(s[1..], sep);
      JoinOfSplit(s[1..], sep);
      if s[0] == sep {
        assert Split(s, sep)[1..] == rest;
      } else {
        JoinHead(s[0], rest, sep);
      }
      assert s == [s[0]] + s[1..];
    }
  }

  lemma {:induction false} SplitOfPlain(s: string, sep: char)
    requires sep !in s
    ensures Split(s, sep) == [s]
  {
    if s != "" {
      assert s == [s[0]] + s[1..];
      assert sep !in s[1..];
      SplitOfPlain(s[1..], sep);
    }
  }

  lemma {:induction false} SplitAtFirst(head: string, tail: string, sep: char)
    requires sep !in head
    ensures Split(head + [sep] + tail, sep) == [head] + Split(tail, sep)
  {
    var s := head + [sep] + tail;
    if head == "" {
      assert s[1..] == tail;
    } else {
      assert s[1..] == head[1..] + [sep] + tail;
      assert head[0] in head;
      assert forall c :: c in head[1..] ==> c in head;
      SplitAtFirst(head[1..], tail, sep);
      assert [head[0]] + head[1..] == head;
    }
  }

  lemma {:induction false} SplitOfJoin(parts: seq<string>, sep: char)
    requires parts != []
    requires forall p :: p in parts ==> sep !in p
    ensures Split(Join(parts, sep), sep) == parts
  {
    if |parts| == 1 {
      SplitOfPlain(parts[0], sep);
    } else {
      SplitOfJoin(parts[1..], sep);
      SplitAtFirst(parts[0], Join(parts[1..], sep), sep);
      assert parts == [parts[0]] + parts[1..];
    }
  }

  lemma SplitCons(s: string, sep: char)
    requires s != ""
    ensures var rest := Split(s[1..], sep);
            Split(s, sep) == if s[0] == sep then [""] + rest else [[s[0]] + rest[0]] + rest[1..]
  {
  }

  lemma {:induction false} SplitSum(a: string, b: string, sep: char)
    ensures Split(a + [sep] + b, sep) == Split(a, sep) + Split(b, sep)
  {
    var s := a + [sep] + b;
    if a == "" {
      SplitAtFirst("", b, sep);
      assert s == "" + [sep] + b;
    } else {
      hide Split;
      assert s[1..] == a[1..] + [sep] + b && s[0] == a[0];
      SplitSum(a[1..], b, sep);
      SplitCons(s, sep);
      SplitCons(a, sep);
      HeadOfSum(a[0], Split(a[1..], sep), Split(b, sep));
    }
  }

  lemma HeadOfSum(c: char, p: seq<string>, q: seq<string>)
    requires p != []
    ensures [[c] + (p + q)[0]] + (p + q)[1..] == ([[c] + p[0]] + p[1..]) + q
    ensures [""] + (p + q) == ([""] + p) + q
  {
    assert (p + q)[1..] == p[1..] + q;
  }

  lemma {:induction false} JoinSum(a: seq<string>, b: seq<string>, sep: char)
    requires a != [] && b != []
    ensures Join(a + b, sep) == Join(a, sep) + [sep] + Join(b, sep)
  {
    assert (a + b)[1..] == a[1..] + b;
    if |a| > 1 {
      JoinSum(a[1..], b, sep);
    } else {
      assert a[1..] + b == b;
    }
  }

  /** `part` stands in `s` between separators. */
  ghost predicate Stands(part: string, s: string, sep: char) {
    exists before, after :: StandsBetween(part, s, sep, before, after)
  }

  ghost predicate StandsBetween(part: string, s: string, sep: char, before: string, after: string) {
    && sep !in part && s == before + part + after
    && (before != "" ==> before[|before| - 1] == sep)
    && (after != "" ==> after[0] == sep)
  }

  /** The parts of a string are what stands between its separators. */
  lemma SplitMembers(s: string, part: string, sep: char)
    ensures part in Split(s, sep) <==> Stands(part, s, sep)
  {
    if part in Split(s, sep) {
      var i :| 0 <= i < |Split(s, sep)| && Split(s, sep)[i] == part;
      PartStands(s, i, sep);
    }
    if Stands(part, s, sep) {
      var before, after :| StandsBetween(part, s, sep, before, after);
      StandsIsPart(part, s, sep, before, after);
    }
  }

  lemma {:induction false} JoinAround(parts: seq<string>, i: nat, sep: char) returns (before: string, after: string)
    requires i < |parts|
    ensures Join(parts, sep) == before + parts[i] + after
    ensures before != "" ==> before[|before| - 1] == sep
    ensures after != "" ==> after[0] == sep
  {
    if i == 0 {
      before, after := "", if |parts| == 1 then "" else [sep] + Join(parts[1..], sep);
    } else {
      before, after := JoinAround(parts[1..], i - 1, sep);
      assert Join(parts, sep) == (parts[0] + [sep] + before) + parts[i] + after;
      before := parts[0] + [sep] + before;
    }
  }

  lemma PartStands(s: string, i: nat, sep: char)
    requires i < |Split(s, sep)|
    ensures Stands(Split(s, sep)[i], s, sep)
  {
    var part := Split(s, sep)[i];
    JoinOfSplit(s, sep);
    var before, after := JoinAround(Split(s, sep), i, sep);
    assert part in Split(s, sep);
    hide Join;
    assert StandsBetween(part, s, sep, before, after);
  }

  lemma StandsIsPart(part: string, s: string, sep: char, before: string, after: string)
    requires StandsBetween(part, s, sep, before, after)
    ensures part in Split(s, sep)
  {
    var tail := part + after;
    FirstOfSplit(part, after, sep);
    if before != "" {
      var head := before[..|before| - 1];
      assert before == head + [sep];
      assert s == head + [sep] + tail;
      SplitSum(head, tail, sep);
    } else {
      assert s == tail;
    }
    hide Split;
    assert part in Split(tail, sep);
  }

  lemma FirstOfSplit(part: string, after: string, sep: char)
    requires sep !in part && (after != "" ==> after[0] == sep)
    ensures Split(part + after, sep)[0] == part
  {
    SplitOfPlain(part, sep);
    if after != "" {
      assert part + after == part + [sep] + after[1..];
      SplitAtFirst(part, after[1..], sep);
    } else {
      assert part + after == part;
    }
    hide Split;
  }

  // ----- reversal -----

  function Backwards<T>(items: seq<T>): seq<T> {
    if items == [] then [] else Backwards(items[1..]) + [items[0]]
  }

  lemma {:induction false} BackwardsTwice<T>(items: seq<T>)
    ensures Backwards(Backwards(items)) == items
  {
    if items != [] {
      BackwardsTwice(items[1..]);
      BackwardsSnoc(Backwards(items[1..]), items[0]);
    }
  }

  lemma {:induction false} BackwardsSnoc<T>(items: seq<T>, last: T)
    ensures Backwards(items + [last]) == [last] + Backwards(items)
  {
    if items != [] {
      assert (items + [last])[1..] == items[1..] + [last];
      BackwardsSnoc(items[1..], last);
    }
  }
}
