/**
 * What a model response means, said without scanning: its lines fall into prose, closed
 * fences and at most one unclosed fence at the end, in exactly one way, and the parser
 * reports the operation blocks in order or the first offending block.
 */
module Grammar {
  import opened Text
  import opened Types
  import opened Parser
  import Paths

  datatype Segment =
    | Prose(line: string)
    | Fenced(open: string, body: seq<string>, close: string)
    | Unclosed(open: string, body: seq<string>)

  function Lines(seg: Segment): seq<string> {
    match seg
    case Prose(line) => [line]
    case Fenced(open, body, close) => [open] + body + [close]
    case Unclosed(open, body) => [open] + body
  }

  predicate Bare(body: seq<string>) {
    forall line :: line in body ==> !IsClose(line)
  }

  predicate Proper(seg: Segment) {
    match seg
    case Prose(line) => !IsFence(line)
    case Fenced(open, body, close) => IsFence(open) && Bare(body) && IsClose(close)
    case Unclosed(open, body) => IsFence(open) && Bare(body)
  }

  predicate WellFormed(segs: seq<Segment>) {
    forall k :: 0 <= k < |segs| ==> Proper(segs[k]) && (segs[k].Unclosed? ==> k == |segs| - 1)
  }

  function Flatten(segs: seq<Segment>): seq<string> {
    if segs == [] then [] else Lines(segs[0]) + Flatten(segs[1..])
  }

  /** The operation a segment holds, if it holds one. */
  function SegmentOps(seg: Segment): seq<FileOp> {
    if !seg.Fenced? then []
    else
      match Opens(seg.open)
      case None => []
      case Some((kind, rawPath)) => [OpOf(kind, rawPath, seg.body)]
  }

  function OpsOf(segs: seq<Segment>): seq<FileOp> {
    if segs == [] then [] else OpsOf(segs[..|segs| - 1]) + SegmentOps(segs[|segs| - 1])
  }

  /** What is wrong with a segment that follows the operations `before`. */
  function Offence(seg: Segment, before: seq<FileOp>): Option<ParseReason> {
    if seg.Prose? then None
    else
      match Opens(seg.open)
      case None => None
      case Some((_, rawPath)) =>
        if rawPath == "" then Some(MissingPath)
        else if seg.Unclosed? then Some(UnclosedFence)
        else if Names(before, Paths.Clean(rawPath)) then Some(DuplicatePath)
        else None
  }

  function OffenceAt(segs: seq<Segment>, k: nat): Option<ParseReason>
    requires k < |segs|
  {
    Offence(segs[k], OpsOf(segs[..k]))
  }

  predicate Sound(segs: seq<Segment>, k: nat)
    requires k <= |segs|
  {
    forall j :: 0 <= j < k ==> OffenceAt(segs, j).None?
  }

  /** The number of lines before segment `k`. */
  function LinesBefore(segs: seq<Segment>, k: nat): nat
    requires k <= |segs|
  {
    |Flatten(segs[..k])|
  }

  // ----- how the lines are spelled -----

  ghost predicate FenceFrom(line: string, before: string, rest: string) {
    Blank(before) && line == before + "```" + rest
  }

  /** A fence is a line that begins with three backquotes, blanks aside ... */
  lemma FenceSpelled(line: string)
    ensures IsFence(line) <==> exists before, rest :: FenceFrom(line, before, rest)
  {
    hide TrimSpace;
    var t := TrimSpace(line);
    TrimSpaceExact(line, t);
    var before, after :| PaddedBy(line, t, before, after);
    if FENCE <= t {
      assert t == FENCE + t[3..];
      assert FenceFrom(line, before, t[3..] + after);
    }
    if before, rest :| FenceFrom(line, before, rest) {
      assert line == before + (FENCE + rest);
      FenceLeads(before, rest);
    }
  }

  lemma FenceLeads(before: string, rest: string)
    requires Blank(before)
    ensures FENCE <= TrimSpace(before + (FENCE + rest))
  {
    assert (FENCE + rest)[0] == '`';
    TrimLeftOfPadded(before, FENCE + rest);
    TrimRightKeeps(FENCE, rest);
    hide TrimLeft, TrimRight;
  }

  /** ... a closing fence one that holds nothing else ... */
  lemma CloseSpelled(line: string)
    ensures IsClose(line) <==> Padded(line, "```")
  {
    TrimSpaceExact(line, FENCE);
    hide TrimSpace;
  }

  function Keyword(kind: OpKind): string {
    if kind == OpDelete then "file-delete:" else "file:"
  }

  ghost predicate OpenFrom(line: string, kind: OpKind, path: string, a: string, b: string, c: string, d: string) {
    && Blank(a) && Blank(b) && Blank(c) && Blank(d)
    && line == a + "```" + b + Keyword(kind) + c + path + d
  }

  /** ... and an operation opens with a keyword and a path after the backquotes, blanks between them aside. */
  lemma OpenSpelled(line: string, kind: OpKind, path: string)
    ensures Opens(line) == Some((kind, path)) <==>
            && (kind == OpWrite || kind == OpDelete) && Trimmed(path)
            && exists a, b, c, d :: OpenFrom(line, kind, path, a, b, c, d)
  {
    hide TrimSpace, Blank;
    if Opens(line) == Some((kind, path)) {
      OpensFrom(line, kind, path);
    }
    if a, b, c, d :| (kind == OpWrite || kind == OpDelete) && Trimmed(path) && OpenFrom(line, kind, path, a, b, c, d) {
      OpensSo(line, kind, path, a, b, c, d);
    }
  }

  ghost predicate InfoFrom(line: string, info: string, a: string, b: string, d: string) {
    Blank(a) && Blank(b) && Blank(d) && line == a + "```" + b + info + d
  }

  lemma InfoIs(line: string) returns (a: string, b: string, d: string)
    requires IsFence(line)
    ensures Trimmed(Info(line)) && InfoFrom(line, Info(line), a, b, d)
  {
    hide TrimSpace, Trimmed, Blank;
    var t, info := TrimSpace(line), Info(line);
    TrimSpaceExact(line, t);
    TrimSpaceExact(t[3..], info);
    var a', d' :| PaddedBy(line, t, a', d');
    var b', e :| PaddedBy(t[3..], info, b', e);
    assert t == "```" + t[3..];
    a, b, d := a', b', e + d';
    BlankSum(e, d');
    hide Info, IsFence;
    assert line == a + ("```" + (b + info + e)) + d';
  }

  lemma BlankSum(a: string, b: string)
    requires Blank(a) && Blank(b)
    ensures Blank(a + b)
  {
  }

  lemma InfoSo(line: string, info: string, a: string, b: string, d: string)
    requires Trimmed(info) && InfoFrom(line, info, a, b, d)
    ensures IsFence(line) && Info(line) == info
  {
    hide TrimSpace, Blank;
    if info == "" {
      BlankSum(b, d);
      assert line == a + "```" + (b + d);
      assert Trimmed("```");
      PaddedTrims("```", a, b + d);
      assert "```"[3..] == "";
      TrimmedIsFixed("");
    } else {
      assert line == a + ("```" + b + info) + d;
      assert ("```" + b + info)[0] == '`' && ("```" + b + info)[|"```" + b + info| - 1] == info[|info| - 1];
      PaddedTrims("```" + b + info, a, d);
      assert ("```" + b + info)[3..] == b + info + "";
      PaddedTrims(info, b, "");
    }
  }

  lemma OpensFrom(line: string, kind: OpKind, path: string)
    requires Opens(line) == Some((kind, path))
    ensures (kind == OpWrite || kind == OpDelete) && Trimmed(path)
    ensures exists a, b, c, d :: OpenFrom(line, kind, path, a, b, c, d)
  {
    hide TrimSpace, Trimmed, Info, IsFence, Blank;
    var a, b, d := InfoIs(line);
    var info := Info(line);
    var x := info[|Keyword(kind)|..];
    assert info == Keyword(kind) + x;
    TrimSpaceExact(x, path);
    var c, e :| PaddedBy(x, path, c, e);
    BlankSum(e, d);
    hide Keyword, Opens;
    Regroup(a, "```", b, Keyword(kind), c, path, e, d);
    assert OpenFrom(line, kind, path, a, b, c, e + d);
  }

  lemma OpensSo(line: string, kind: OpKind, path: string, a: string, b: string, c: string, d: string)
    requires kind == OpWrite || kind == OpDelete
    requires Trimmed(path) && OpenFrom(line, kind, path, a, b, c, d)
    ensures Opens(line) == Some((kind, path))
  {
    hide TrimSpace, Info, IsFence, ClassifyInfo, Blank;
    var rest, end := if path == "" then "" else c + path, if path == "" then c + d else d;
    BlankSum(c, d);
    EndsInPath(path, c, rest);
    KeywordLeads(kind, rest);
    KeywordTrimmed(kind, rest, path);
    RestTrims(path, c, rest);
    hide Keyword, Trimmed;
    RegroupRest(a, "```", b, Keyword(kind), c, path, d);
    InfoSo(line, Keyword(kind) + rest, a, b, end);
  }

  lemma EndsInPath(path: string, c: string, rest: string)
    requires rest == if path == "" then "" else c + path
    ensures if path == "" then rest == "" else EndsWith(rest, path)
  {
  }

  lemma Regroup(a: string, f: string, b: string, k: string, c: string, p: string, e: string, d: string)
    ensures a + f + b + (k + (c + p + e)) + d == a + f + b + k + c + p + (e + d)
  {
    var front := a + f + b;
    assert front + (k + (c + p + e)) == front + k + c + p + e;
  }

  lemma RegroupRest(a: string, f: string, b: string, k: string, c: string, p: string, d: string)
    ensures a + f + b + k + c + p + d ==
            a + f + b + (k + (if p == "" then "" else c + p)) + (if p == "" then c + d else d)
  {
    var front := a + f + b;
    if p == "" {
      assert front + k + c + p + d == front + (k + "") + (c + d);
    } else {
      assert front + k + c + p == front + (k + (c + p));
    }
  }

  lemma KeywordTrimmed(kind: OpKind, rest: string, path: string)
    requires Trimmed(path) && (if path == "" then rest == "" else EndsWith(rest, path))
    ensures Trimmed(Keyword(kind) + rest)
  {
    var info := Keyword(kind) + rest;
    assert info[0] == 'f';
    assert info[|info| - 1] == if rest == "" then ':' else rest[|rest| - 1];
    if path != "" { assert rest[|rest| - |path|..][|path| - 1] == rest[|rest| - 1]; }
  }

  lemma RestTrims(path: string, c: string, rest: string)
    requires Trimmed(path) && Blank(c) && rest == if path == "" then "" else c + path
    ensures TrimSpace(rest) == path
  {
    if path == "" {
      TrimmedIsFixed("");
    } else {
      assert rest == c + path + "";
      PaddedTrims(path, c, "");
    }
  }

  lemma KeywordLeads(kind: OpKind, rest: string)
    requires kind == OpWrite || kind == OpDelete
    ensures var info := Keyword(kind) + rest;
            && info[|Keyword(kind)|..] == rest && info[0] == 'f'
            && ClassifyInfo(info) == Some((kind, TrimSpace(rest)))
  {
    hide TrimSpace;
    var info := Keyword(kind) + rest;
    assert info[|Keyword(kind)|..] == rest;
    assert kind == OpWrite ==> info[4] == ':' && DELETE_PREFIX[4] == '-';
  }

  // ----- one way to segment -----

  function Segments(lines: seq<string>): seq<Segment>
    decreases |lines|
  {
    if lines == [] then []
    else if !IsFence(lines[0]) then [Prose(lines[0])] + Segments(lines[1..])
    else
      var n := BodyLength(lines[1..]);
      if n == |lines| - 1 then [Unclosed(lines[0], lines[1..])]
      else [Fenced(lines[0], lines[1..n + 1], lines[n + 1])] + Segments(lines[n + 2..])
  }

  lemma {:induction false} BodyLengthOf(body: seq<string>, rest: seq<string>)
    requires Bare(body)
    requires rest == [] || IsClose(rest[0])
    ensures BodyLength(body + rest) == |body|
  {
    hide IsClose;
    if body == [] {
      assert body + rest == rest;
    } else {
      assert body[0] in body;
      assert (body + rest)[1..] == body[1..] + rest;
      BodyLengthOf(body[1..], rest);
    }
  }

  lemma BareBody(lines: seq<string>)
    ensures Bare(lines[..BodyLength(lines)])
  {
    hide IsClose;
    var body := lines[..BodyLength(lines)];
    forall line | line in body
      ensures !IsClose(line)
    {
      var i :| 0 <= i < |body| && body[i] == line;
      assert !IsClose(lines[i]);
    }
  }

  lemma WellFormedCons(seg: Segment, segs: seq<Segment>)
    requires Proper(seg) && WellFormed(segs) && (seg.Unclosed? ==> segs == [])
    ensures WellFormed([seg] + segs) && Flatten([seg] + segs) == Lines(seg) + Flatten(segs)
  {
    hide Proper;
    var all := [seg] + segs;
    assert all[1..] == segs;
    forall k | 0 <= k < |all|
      ensures Proper(all[k]) && (all[k].Unclosed? ==> k == |all| - 1)
    {
      assert k > 0 ==> all[k] == segs[k - 1];
    }
  }

  lemma EmptyWellFormed()
    ensures WellFormed([]) && Flatten([]) == []
  {
  }

  lemma WellFormedTail(segs: seq<Segment>)
    requires WellFormed(segs) && segs != []
    ensures Proper(segs[0]) && WellFormed(segs[1..]) && (segs[0].Unclosed? ==> segs[1..] == [])
  {
    hide Proper;
    forall k | 0 <= k < |segs[1..]|
      ensures Proper(segs[1..][k]) && (segs[1..][k].Unclosed? ==> k == |segs[1..]| - 1)
    {
      assert segs[1..][k] == segs[k + 1];
    }
  }

  /** The lines of a closed fence, taken apart again. */
  lemma FencedLines(open: string, body: seq<string>, close: string, rest: seq<string>)
    requires Bare(body) && IsClose(close)
    ensures var lines := [open] + body + [close] + rest;
            && |lines| == |body| + 2 + |rest|
            && lines[0] == open
            && BodyLength(lines[1..]) == |body|
            && lines[1..|body| + 1] == body
            && lines[|body| + 1] == close
            && lines[|body| + 2..] == rest
  {
    hide IsClose, Bare, BodyLength;
    var lines := [open] + body + [close] + rest;
    assert lines[1..] == body + ([close] + rest);
    BodyLengthOf(body, [close] + rest);
  }

  lemma UnclosedLines(open: string, body: seq<string>)
    requires Bare(body)
    ensures var lines := [open] + body; lines[1..] == body && BodyLength(lines[1..]) == |body|
  {
    assert ([open] + body)[1..] == body;
    assert body + [] == body;
    BodyLengthOf(body, []);
  }

  lemma SegmentsOfCons(seg: Segment, rest: seq<string>)
    requires Proper(seg) && (seg.Unclosed? ==> rest == [])
    ensures Segments(Lines(seg) + rest) == [seg] + Segments(rest)
  {
    hide IsFence, IsClose, Bare, BodyLength;
    var lines := Lines(seg) + rest;
    match seg
    case Prose(line) =>
      assert lines[1..] == rest;
    case Fenced(open, body, close) =>
      FencedLines(open, body, close, rest);
    case Unclosed(open, body) =>
      assert lines == [open] + body;
      UnclosedLines(open, body);
  }

  /** The first segment of a text. */
  lemma FirstSegment(lines: seq<string>) returns (seg: Segment, rest: seq<string>)
    requires lines != []
    ensures Proper(seg) && lines == Lines(seg) + rest && (seg.Unclosed? ==> rest == [])
  {
    hide IsFence, IsClose, BodyLength, Bare;
    if !IsFence(lines[0]) {
      return Prose(lines[0]), lines[1..];
    }
    var n := BodyLength(lines[1..]);
    BareBody(lines[1..]);
    if n == |lines| - 1 {
      assert lines[1..][..n] == lines[1..];
      return Unclosed(lines[0], lines[1..]), [];
    }
    assert lines[1..][..n] == lines[1..n + 1];
    assert lines[1..][n] == lines[n + 1];
    return Fenced(lines[0], lines[1..n + 1], lines[n + 1]), lines[n + 2..];
  }

  lemma LinesNonempty(seg: Segment)
    ensures |Lines(seg)| > 0
  {
  }

  /** Every text has a segmentation... */
  lemma {:induction false} SegmentsExact(lines: seq<string>)
    ensures WellFormed(Segments(lines)) && Flatten(Segments(lines)) == lines
    decreases |lines|
  {
    if lines == [] {
      EmptyWellFormed();
    } else {
      hide *;
      var seg, rest := FirstSegment(lines);
      LinesNonempty(seg);
      SegmentsExact(rest);
      SegmentsOfCons(seg, rest);
      if seg.Unclosed? {
        SegmentsNone();
      }
      WellFormedCons(seg, Segments(rest));
    }
  }

  lemma SegmentsNone()
    ensures Segments([]) == []
  {
  }

  /** ... and only one. */
  lemma {:induction false} SegmentsUnique(segs: seq<Segment>)
    requires WellFormed(segs)
    ensures Segments(Flatten(segs)) == segs
  {
    hide WellFormed, Proper, Lines;
    if segs != [] {
      WellFormedTail(segs);
      SegmentsUnique(segs[1..]);
      SegmentsOfCons(segs[0], Flatten(segs[1..]));
      if segs[0].Unclosed? {
        EmptyWellFormed();
      }
      assert segs == [segs[0]] + segs[1..];
    }
  }

  // ----- the parser reads segments -----

  lemma ScanProse(text: string, rest: seq<string>, line: nat, ops: seq<FileOp>)
    requires !IsFence(text)
    ensures Scan([text] + rest, line, ops) == Scan(rest, line + 1, ops)
  {
    hide IsFence;
    assert ([text] + rest)[1..] == rest;
  }

  lemma ScanFenced(open: string, body: seq<string>, close: string, rest: seq<string>, line: nat, ops: seq<FileOp>)
    requires IsFence(open) && Bare(body) && IsClose(close)
    ensures Scan([open] + body + [close] + rest, line, ops) ==
            match Offence(Fenced(open, body, close), ops)
            case Some(reason) => Failure(ParseError(reason, line + 1))
            case None => Scan(rest, line + |body| + 2, ops + SegmentOps(Fenced(open, body, close)))
  {
    hide IsFence, IsClose, Bare, Opens, Names, OpOf, Scan, BodyLength;
    FencedLines(open, body, close, rest);
    ScanUnfold([open] + body + [close] + rest, |body|, line, ops);
    assert ops + [] == ops;
  }

  lemma ScanUnclosed(open: string, body: seq<string>, line: nat, ops: seq<FileOp>)
    requires IsFence(open) && Bare(body)
    ensures Scan([open] + body, line, ops) ==
            match Offence(Unclosed(open, body), ops)
            case Some(reason) => Failure(ParseError(reason, line + 1))
            case None => Success(ops)
  {
    hide IsFence, IsClose, Bare, Opens, Names, OpOf, Scan, BodyLength;
    UnclosedLines(open, body);
    ScanUnfold([open] + body, |body|, line, ops);
  }

  lemma ScanSegment(seg: Segment, rest: seq<string>, line: nat, ops: seq<FileOp>)
    requires Proper(seg) && (seg.Unclosed? ==> rest == [])
    ensures Scan(Lines(seg) + rest, line, ops) ==
            match Offence(seg, ops)
            case Some(reason) => Failure(ParseError(reason, line + 1))
            case None => Scan(rest, line + |Lines(seg)|, ops + SegmentOps(seg))
  {
    hide IsFence, IsClose, Bare, Opens, Names, OpOf, Scan, BodyLength;
    assert ops + [] == ops;
    match seg
    case Prose(text) =>
      ScanProse(text, rest, line, ops);
    case Fenced(open, body, close) =>
      ScanFenced(open, body, close, rest, line, ops);
    case Unclosed(open, body) =>
      assert Lines(seg) + rest == [open] + body;
      ScanUnclosed(open, body, line, ops);
      ScanNothing(line + |Lines(seg)|, ops);
  }

  lemma FlattenAt(segs: seq<Segment>, k: nat)
    requires k < |segs|
    ensures Flatten(segs[k..]) == Lines(segs[k]) + Flatten(segs[k + 1..])
    ensures LinesBefore(segs, k + 1) == LinesBefore(segs, k) + |Lines(segs[k])|
    ensures OpsOf(segs[..k + 1]) == OpsOf(segs[..k]) + SegmentOps(segs[k])
  {
    hide Lines, SegmentOps;
    assert segs[k..][1..] == segs[k + 1..];
    assert segs[..k + 1][..k] == segs[..k];
    assert segs[..k + 1] == segs[..k] + [segs[k]];
    FlattenSnoc(segs[..k], segs[k]);
  }

  lemma {:induction false} FlattenSnoc(segs: seq<Segment>, last: Segment)
    ensures Flatten(segs + [last]) == Flatten(segs) + Lines(last)
  {
    hide Lines;
    if segs == [] {
      assert [last][1..] == [];
      assert [] + [last] == [last];
      assert Lines(last) + [] == Lines(last);
    } else {
      assert (segs + [last])[1..] == segs[1..] + [last];
      FlattenSnoc(segs[1..], last);
    }
  }

  lemma {:induction false} ScanPast(segs: seq<Segment>, k: nat)
    requires k <= |segs| && WellFormed(segs) && Sound(segs, k)
    ensures Scan(Flatten(segs), 0, []) == Scan(Flatten(segs[k..]), LinesBefore(segs, k), OpsOf(segs[..k]))
  {
    hide Scan, Proper, Lines, Offence, SegmentOps, Flatten;
    if k == 0 {
      EmptyWellFormed();
      assert segs[0..] == segs && segs[..0] == [];
    } else {
      ScanPast(segs, k - 1);
      FlattenAt(segs, k - 1);
      ScanSegmentAt(segs, k - 1);
      assert OffenceAt(segs, k - 1).None?;
    }
  }

  lemma ScanSegmentAt(segs: seq<Segment>, k: nat)
    requires k < |segs| && WellFormed(segs)
    ensures Scan(Flatten(segs[k..]), LinesBefore(segs, k), OpsOf(segs[..k])) ==
            match OffenceAt(segs, k)
            case Some(reason) => Failure(ParseError(reason, LinesBefore(segs, k) + 1))
            case None => Scan(Flatten(segs[k + 1..]), LinesBefore(segs, k + 1), OpsOf(segs[..k + 1]))
  {
    hide Scan, Proper, Lines, Offence, SegmentOps, Flatten;
    FlattenAt(segs, k);
    if segs[k].Unclosed? {
      assert segs[k + 1..] == [];
      EmptyWellFormed();
    }
    ScanSegment(segs[k], Flatten(segs[k + 1..]), LinesBefore(segs, k), OpsOf(segs[..k]));
  }

  /**
   * The parser refines the segmentation: with no offence it yields the blocks' operations in
   * order; otherwise the reason and the opening line of the first offending block.
   */
  lemma ParseMeans(output: string, segs: seq<Segment>)
    requires WellFormed(segs) && Flatten(segs) == Split(output, '\n')
    ensures Sound(segs, |segs|) ==>
              ParseText(output) ==
              if OpsOf(segs) == [] then Failure(ParseError(NoOperations, 0)) else Success(OpsOf(segs))
    ensures forall k :: 0 <= k < |segs| && Sound(segs, k) && OffenceAt(segs, k).Some? ==>
              ParseText(output) == Failure(ParseError(OffenceAt(segs, k).value, LinesBefore(segs, k) + 1))
  {
    hide Flatten, OpsOf, OffenceAt, WellFormed, LinesBefore, Sound, Scan;
    if Sound(segs, |segs|) {
      ScanPast(segs, |segs|);
      assert segs[|segs|..] == [] && segs[..|segs|] == segs;
      EmptyWellFormed();
      ScanNothing(LinesBefore(segs, |segs|), OpsOf(segs));
    }
    forall k | 0 <= k < |segs| && Sound(segs, k) && OffenceAt(segs, k).Some?
      ensures ParseText(output) == Failure(ParseError(OffenceAt(segs, k).value, LinesBefore(segs, k) + 1))
    {
      ScanPast(segs, k);
      ScanSegmentAt(segs, k);
    }
  }

  lemma ScanNothing(line: nat, ops: seq<FileOp>)
    ensures Scan([], line, ops) == Success(ops)
  {
  }
}
