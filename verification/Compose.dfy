/** Parsing a response in two halves. */
module Compose {
  import opened Text
  import opened Types
  import opened Parser
  import opened Grammar
  import Paths

  predicate Closed(segs: seq<Segment>) {
    forall k :: 0 <= k < |segs| ==> Proper(segs[k]) && !segs[k].Unclosed?
  }

  /** `output` leaves no fence open at its end. */
  predicate EndsAtTop(output: string) {
    Closed(Segments(Split(output, '\n')))
  }

  /** The scan of a whole output, before the check for no operations at all. */
  function Scanned(output: string): Result<seq<FileOp>, ParseError> {
    Scan(Split(output, '\n'), 0, [])
  }

  /** A block that repeats a path of `before`. */
  predicate Clashes(before: seq<FileOp>, seg: Segment) {
    exists op :: op in SegmentOps(seg) && op.rawPath != "" && Names(before, op.path)
  }

  predicate NoClash(before: seq<FileOp>, segs: seq<Segment>, k: nat)
    requires k <= |segs|
  {
    forall j :: 0 <= j < k ==> !Clashes(before, segs[j])
  }

  /** How the text of `segs` scans when `shift` lines and the operations `before` come first, compared with `alone`,
      its scan by itself: the first block to repeat a path of `before` ends it at its opening line, unless the scan
      by itself has ended before; otherwise the operations follow, or the error moves by the lines. */
  ghost predicate Follows(r: Result<seq<FileOp>, ParseError>, before: seq<FileOp>, shift: nat, segs: seq<Segment>,
                          alone: Result<seq<FileOp>, ParseError>) {
    && (forall k :: 0 <= k < |segs| && Sound(segs, k) && NoClash(before, segs, k) && Clashes(before, segs[k]) ==>
          r == Failure(ParseError(DuplicatePath, shift + LinesBefore(segs, k) + 1)))
    && ((forall k :: 0 <= k < |segs| && Sound(segs, k) ==> !Clashes(before, segs[k])) ==>
          r == match alone
               case Success(ops) => Success(before + ops)
               case Failure(e) => Failure(e.(line := e.line + shift)))
  }

  lemma NamesAcross(before: seq<FileOp>, ops: seq<FileOp>, path: string)
    ensures Names(before + ops, path) <==> Names(before, path) || Names(ops, path)
  {
    assert forall op :: op in before + ops <==> op in before || op in ops;
  }

  /** Earlier operations add one way to offend, and it comes last. */
  lemma OffenceAfter(seg: Segment, before: seq<FileOp>, ops: seq<FileOp>)
    ensures Offence(seg, before + ops) ==
            if Clashes(before, seg) then Some(DuplicatePath) else Offence(seg, ops)
  {
    if !seg.Prose? && Opens(seg.open).Some? {
      var (kind, rawPath) := Opens(seg.open).value;
      NamesAcross(before, ops, Paths.Clean(rawPath));
      if seg.Fenced? {
        var op := OpOf(kind, rawPath, seg.body);
        assert SegmentOps(seg) == [op] && op.path == Paths.Clean(rawPath) && op.rawPath == rawPath;
        hide OpOf, Names;
        assert Clashes(before, seg) <==> rawPath != "" && Names(before, op.path);
      }
    }
  }

  lemma SegmentAfter(segs: seq<Segment>, k: nat, before: seq<FileOp>, shift: nat)
    requires k < |segs| && WellFormed(segs)
    ensures Scan(Flatten(segs[k..]), shift + LinesBefore(segs, k), before + OpsOf(segs[..k])) ==
            if Clashes(before, segs[k]) then Failure(ParseError(DuplicatePath, shift + LinesBefore(segs, k) + 1))
            else
              match OffenceAt(segs, k)
              case Some(reason) => Failure(ParseError(reason, shift + LinesBefore(segs, k) + 1))
              case None => Scan(Flatten(segs[k + 1..]), shift + LinesBefore(segs, k + 1), before + OpsOf(segs[..k + 1]))
  {
    hide Scan, Proper, Lines, Offence, SegmentOps, Flatten, Clashes, OpsOf, LinesBefore;
    FlattenAt(segs, k);
    if segs[k].Unclosed? {
      assert segs[k + 1..] == [];
      EmptyWellFormed();
    }
    ScanSegment(segs[k], Flatten(segs[k + 1..]), shift + LinesBefore(segs, k), before + OpsOf(segs[..k]));
    OffenceAfter(segs[k], before, OpsOf(segs[..k]));
    assert before + OpsOf(segs[..k]) + SegmentOps(segs[k]) == before + OpsOf(segs[..k + 1]);
  }

  lemma {:induction false} ScanAfter(segs: seq<Segment>, k: nat, before: seq<FileOp>, shift: nat)
    requires k <= |segs| && WellFormed(segs) && Sound(segs, k) && NoClash(before, segs, k)
    ensures Scan(Flatten(segs), shift, before) ==
            Scan(Flatten(segs[k..]), shift + LinesBefore(segs, k), before + OpsOf(segs[..k]))
  {
    hide Scan, WellFormed, OffenceAt, Clashes, Flatten;
    if k == 0 {
      EmptyWellFormed();
      assert segs[0..] == segs && segs[..0] == [];
      assert before + [] == before;
    } else {
      ScanAfter(segs, k - 1, before, shift);
      SegmentAfter(segs, k - 1, before, shift);
    }
  }

  /** A clash ends the scan, and so does an offence of the text itself. */
  lemma ScanClash(segs: seq<Segment>, k: nat, before: seq<FileOp>, shift: nat)
    requires k < |segs| && WellFormed(segs) && Sound(segs, k) && NoClash(before, segs, k) && Clashes(before, segs[k])
    ensures Scan(Flatten(segs), shift, before) == Failure(ParseError(DuplicatePath, shift + LinesBefore(segs, k) + 1))
  {
    hide *;
    ScanAfter(segs, k, before, shift);
    SegmentAfter(segs, k, before, shift);
  }

  lemma ScanClear(segs: seq<Segment>, before: seq<FileOp>, shift: nat)
    requires WellFormed(segs)
    requires forall k :: 0 <= k < |segs| && Sound(segs, k) ==> !Clashes(before, segs[k])
    ensures Scan(Flatten(segs), shift, before) ==
            match Scan(Flatten(segs), 0, [])
            case Success(ops) => Success(before + ops)
            case Failure(e) => Failure(e.(line := e.line + shift))
  {
    hide Scan, WellFormed, OffenceAt, Clashes, Flatten, OpsOf, LinesBefore;
    var k := SoundUpTo(segs);
    SoundShorter(segs, k);
    ScanAfter(segs, k, before, shift);
    ScanPast(segs, k);
    if k < |segs| {
      SegmentAfter(segs, k, before, shift);
      ScanSegmentAt(segs, k);
    } else {
      assert segs[k..] == [] && segs[..k] == segs;
      EmptyWellFormed();
      ScanNothing(LinesBefore(segs, k), OpsOf(segs));
      ScanNothing(shift + LinesBefore(segs, k), before + OpsOf(segs));
    }
  }

  /** The first offending segment, or the end. */
  lemma {:induction false} SoundUpTo(segs: seq<Segment>) returns (k: nat)
    ensures k <= |segs| && Sound(segs, k) && (k < |segs| ==> OffenceAt(segs, k).Some?)
  {
    hide OffenceAt;
    k := 0;
    while k < |segs| && OffenceAt(segs, k).None?
      invariant k <= |segs| && Sound(segs, k)
    {
      k := k + 1;
    }
  }

  lemma SoundShorter(segs: seq<Segment>, k: nat)
    requires k <= |segs| && Sound(segs, k)
    ensures forall j :: 0 <= j <= k ==> Sound(segs, j)
  {
    hide OffenceAt;
  }

  lemma {:induction false} ScanAcross(segs: seq<Segment>, rest: seq<string>, line: nat, ops: seq<FileOp>)
    requires Closed(segs)
    ensures Scan(Flatten(segs) + rest, line, ops) ==
            match Scan(Flatten(segs), line, ops)
            case Success(found) => Scan(rest, line + |Flatten(segs)|, found)
            case Failure(e) => Failure(e)
  {
    hide Scan, Lines, Proper, Offence, SegmentOps;
    if segs == [] {
      assert Flatten(segs) + rest == rest;
      ScanNothing(line, ops);
    } else {
      var seg := segs[0];
      assert Proper(seg) && !seg.Unclosed?;
      ScanSegment(seg, Flatten(segs[1..]), line, ops);
      ScanSegment(seg, Flatten(segs[1..]) + rest, line, ops);
      assert Lines(seg) + (Flatten(segs[1..]) + rest) == Flatten(segs) + rest;
      ScanAcross(segs[1..], rest, line + |Lines(seg)|, ops + SegmentOps(seg));
    }
  }

  lemma {:induction false} SplitOfSum(a: string, b: string, sep: char)
    ensures Split(a + [sep] + b, sep) == Split(a, sep) + Split(b, sep)
  {
    var s := a + [sep] + b;
    if a == "" {
      assert s[1..] == b;
    } else {
      assert s[1..] == a[1..] + [sep] + b;
      SplitOfSum(a[1..], b, sep);
    }
  }

  lemma FollowsFrom(segs: seq<Segment>, before: seq<FileOp>, shift: nat)
    requires WellFormed(segs)
    ensures Follows(Scan(Flatten(segs), shift, before), before, shift, segs, Scan(Flatten(segs), 0, []))
  {
    hide Scan, WellFormed, Clashes, NoClash, Sound, Flatten, LinesBefore;
    forall k | 0 <= k < |segs| && Sound(segs, k) && NoClash(before, segs, k) && Clashes(before, segs[k])
      ensures Scan(Flatten(segs), shift, before) == Failure(ParseError(DuplicatePath, shift + LinesBefore(segs, k) + 1))
    {
      ScanClash(segs, k, before, shift);
    }
    if forall k :: 0 <= k < |segs| && Sound(segs, k) ==> !Clashes(before, segs[k]) {
      ScanClear(segs, before, shift);
    }
  }

  /**
   * When `a` ends at top level, an error in `a` is the error of the whole; otherwise the whole
   * reads as the operations of `a` followed by those of `b`, unless a path of `b` is taken.
   */
  lemma ParseConcat(a: string, b: string)
    requires EndsAtTop(a)
    ensures match Scanned(a)
            case Failure(e) => Scanned(a + "\n" + b) == Failure(e)
            case Success(ops) =>
              Follows(Scanned(a + "\n" + b), ops, |Split(a, '\n')|, Segments(Split(b, '\n')), Scanned(b))
  {
    hide Scan, Flatten, Closed, Segments, Split, Follows;
    var segs := Segments(Split(a, '\n'));
    SegmentsExact(Split(a, '\n'));
    SegmentsExact(Split(b, '\n'));
    SplitOfSum(a, b, '\n');
    ScanAcross(segs, Split(b, '\n'), 0, []);
    if Scanned(a).Success? {
      FollowsFrom(Segments(Split(b, '\n')), Scanned(a).value, |Split(a, '\n')|);
    }
  }
}
