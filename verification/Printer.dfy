/** Printing operations as blocks, and what the parser can ever return. */
module Printer {
  import opened Text
  import opened Types
  import opened Parser
  import opened Grammar
  import Paths

  /** An operation that a block can spell. */
  predicate PrintableOp(op: FileOp) {
    && (op.kind == OpWrite || op.kind == OpDelete)
    && op.rawPath != "" && Trimmed(op.rawPath) && '\n' !in op.rawPath
    && op.path == Paths.Clean(op.rawPath)
    && (op.kind == OpWrite ==> Bare(Split(op.content, '\n')))
    && (op.kind == OpDelete ==> op.content == "")
  }

  predicate Apart(ops: seq<FileOp>) {
    forall i, j :: 0 <= i < j < |ops| ==> ops[i].path != ops[j].path
  }

  predicate AllPrintable(ops: seq<FileOp>) {
    forall i :: 0 <= i < |ops| ==> PrintableOp(ops[i])
  }

  predicate Printable(ops: seq<FileOp>) {
    ops != [] && AllPrintable(ops) && Apart(ops)
  }

  function Prefix(kind: OpKind): string {
    if kind == OpDelete then DELETE_PREFIX else FILE_PREFIX
  }

  function Block(op: FileOp): Segment {
    Fenced(FENCE + Prefix(op.kind) + op.rawPath, if op.kind == OpWrite then Split(op.content, '\n') else [], FENCE)
  }

  /** A segment that holds no operation and spoils none. */
  predicate Idle(seg: Segment) {
    Proper(seg) && (seg.Prose? || (seg.Fenced? && Opens(seg.open).None?))
  }

  predicate OneLine(lines: seq<string>) {
    forall line :: line in lines ==> '\n' !in line
  }

  predicate Gap(segs: seq<Segment>) {
    (forall k :: 0 <= k < |segs| ==> Idle(segs[k])) && OneLine(Flatten(segs))
  }

  /** `gaps[0]`, the first block, `gaps[1]`, ... */
  function Document(ops: seq<FileOp>, gaps: seq<seq<Segment>>): seq<string>
    requires |gaps| == |ops| + 1
    decreases |ops|
  {
    Flatten(gaps[0]) + if ops == [] then [] else Lines(Block(ops[0])) + Document(ops[1..], gaps[1..])
  }

  // ----- the blocks of a document are read back -----

  lemma MarkerInfo(info: string)
    requires info != "" && Trimmed(info)
    ensures IsFence(FENCE + info) && Info(FENCE + info) == info
  {
    hide TrimSpace;
    var line := FENCE + info;
    assert line[0] == '`' && line[|line| - 1] == info[|info| - 1];
    assert line[|FENCE|..] == info;
    TrimmedIsFixed(line);
    TrimmedIsFixed(info);
  }

  lemma PrefixClassified(kind: OpKind, rawPath: string)
    requires kind == OpWrite || kind == OpDelete
    requires rawPath != "" && Trimmed(rawPath)
    ensures Trimmed(Prefix(kind) + rawPath) && ClassifyInfo(Prefix(kind) + rawPath) == Some((kind, rawPath))
  {
    hide TrimSpace;
    var info := Prefix(kind) + rawPath;
    assert info[0] == 'f' && info[|info| - 1] == rawPath[|rawPath| - 1];
    assert info[|Prefix(kind)|..] == rawPath;
    assert kind == OpWrite ==> info[4] == ':' && DELETE_PREFIX[4] == '-';
    TrimmedIsFixed(rawPath);
  }

  lemma OpensBlock(op: FileOp)
    requires PrintableOp(op)
    ensures Opens(Block(op).open) == Some((op.kind, op.rawPath))
  {
    hide Bare, Split, Paths.Clean, Trimmed, ClassifyInfo, Info, IsFence, Prefix;
    var info := Prefix(op.kind) + op.rawPath;
    PrefixClassified(op.kind, op.rawPath);
    MarkerInfo(info);
    assert Block(op).open == FENCE + info;
  }

  lemma ClosesItself()
    ensures IsClose(FENCE)
  {
    TrimmedIsFixed(FENCE);
  }

  lemma OpensIsFence(line: string)
    requires Opens(line).Some?
    ensures IsFence(line)
  {
  }

  lemma BlockReads(op: FileOp, before: seq<FileOp>)
    requires PrintableOp(op)
    ensures Proper(Block(op)) && SegmentOps(Block(op)) == [op]
    ensures Offence(Block(op), before) == if Names(before, op.path) then Some(DuplicatePath) else None
  {
    OpensBlock(op);
    OpensIsFence(Block(op).open);
    ClosesItself();
    JoinOfSplit(op.content, '\n');
    hide Opens, IsFence, IsClose, Names, Split, Join, Paths.Clean, Trimmed;
  }

  lemma {:induction false} ScanGap(segs: seq<Segment>, rest: seq<string>, line: nat, ops: seq<FileOp>)
    requires forall k :: 0 <= k < |segs| ==> Idle(segs[k])
    ensures Scan(Flatten(segs) + rest, line, ops) == Scan(rest, line + |Flatten(segs)|, ops)
  {
    hide Scan, Lines, Proper, Opens;
    if segs == [] {
      assert Flatten(segs) + rest == rest;
    } else {
      var seg := segs[0];
      assert Idle(seg);
      ScanSegment(seg, Flatten(segs[1..]) + rest, line, ops);
      assert ops + [] == ops;
      assert Lines(seg) + (Flatten(segs[1..]) + rest) == Flatten(segs) + rest;
      ScanGap(segs[1..], rest, line + |Lines(seg)|, ops);
    }
  }

  lemma ApartSplit(acc: seq<FileOp>, ops: seq<FileOp>)
    requires ops != [] && Apart(acc + ops)
    ensures !Names(acc, ops[0].path) && Apart(acc + [ops[0]] + ops[1..])
  {
    var all := acc + ops;
    assert all[|acc|] == ops[0];
    forall op | op in acc
      ensures op.path != ops[0].path
    {
      var i :| 0 <= i < |acc| && acc[i] == op;
      assert all[i] == op;
    }
    assert acc + [ops[0]] + ops[1..] == all;
  }

  lemma {:induction false} ScanDocument(ops: seq<FileOp>, gaps: seq<seq<Segment>>, line: nat, acc: seq<FileOp>)
    requires |gaps| == |ops| + 1 && AllPrintable(ops) && Apart(acc + ops)
    requires forall k :: 0 <= k < |gaps| ==> Gap(gaps[k])
    ensures Scan(Document(ops, gaps), line, acc) == Success(acc + ops)
    decreases |ops|
  {
    hide Scan, PrintableOp, Apart, Names, Flatten, Lines, Idle, Offence, SegmentOps, Proper, Block;
    assert Gap(gaps[0]);
    var start := line + |Flatten(gaps[0])|;
    if ops == [] {
      ScanGap(gaps[0], [], line, acc);
      ScanNothing(start, acc);
      assert acc + ops == acc;
    } else {
      var rest := Document(ops[1..], gaps[1..]);
      var seg := Block(ops[0]);
      assert PrintableOp(ops[0]);
      ScanGap(gaps[0], Lines(seg) + rest, line, acc);
      ApartSplit(acc, ops);
      BlockReads(ops[0], acc);
      BlockFenced(ops[0]);
      ScanSegment(seg, rest, start, acc);
      ScanDocument(ops[1..], gaps[1..], start + |Lines(seg)|, acc + [ops[0]]);
      assert acc + [ops[0]] + ops[1..] == acc + ops;
    }
  }

  lemma BlockFenced(op: FileOp)
    ensures Block(op).Fenced?
  {
  }

  lemma {:induction false} DocumentOneLine(ops: seq<FileOp>, gaps: seq<seq<Segment>>)
    requires |gaps| == |ops| + 1 && AllPrintable(ops)
    requires forall k :: 0 <= k < |gaps| ==> Gap(gaps[k])
    ensures OneLine(Document(ops, gaps))
    ensures ops != [] ==> Document(ops, gaps) != []
    decreases |ops|
  {
    hide Flatten, Bare, Trimmed, Paths.Clean, Split, Join, Idle;
    assert Gap(gaps[0]);
    if ops != [] {
      DocumentOneLine(ops[1..], gaps[1..]);
      assert PrintableOp(ops[0]);
      var body := Block(ops[0]).body;
      assert forall line :: line in body ==> '\n' !in line;
      assert '\n' !in Block(ops[0]).open;
    }
  }

  /**
   * Printed blocks, with prose or ignored fences around them, parse to the operations they
   * were printed from: kinds, paths and contents byte for byte.
   */
  lemma ParseOfDocument(ops: seq<FileOp>, gaps: seq<seq<Segment>>)
    requires |gaps| == |ops| + 1 && Printable(ops)
    requires forall k :: 0 <= k < |gaps| ==> Gap(gaps[k])
    ensures ParseText(Join(Document(ops, gaps), '\n')) == Success(ops)
  {
    hide Scan, Document, Gap, AllPrintable, Apart, Split, Join;
    var doc := Document(ops, gaps);
    DocumentOneLine(ops, gaps);
    assert forall p :: p in doc ==> '\n' !in p;
    SplitOfJoin(doc, '\n');
    assert [] + ops == ops;
    ScanDocument(ops, gaps, 0, []);
  }

  // ----- and the parser returns nothing else -----

  lemma {:induction false} TrimLeftIsTail(s: string)
    ensures forall c :: c in TrimLeft(s) ==> c in s
  {
    if s != "" && IsSpace(s[0]) {
      TrimLeftIsTail(s[1..]);
    }
  }

  lemma TrimSpaceKeeps(s: string)
    ensures forall c :: c in TrimSpace(s) ==> c in s
  {
    TrimLeftIsTail(s);
    TrimRightKeepsHead(TrimLeft(s));
  }

  lemma OpensPath(line: string)
    requires Opens(line).Some? && '\n' !in line
    ensures var (kind, rawPath) := Opens(line).value;
            (kind == OpWrite || kind == OpDelete) && Trimmed(rawPath) && '\n' !in rawPath
  {
    hide TrimSpace, Trimmed;
    var trimmed := TrimSpace(line);
    TrimSpaceKeeps(line);
    TrimSpaceKeeps(trimmed[|FENCE|..]);
    var info := Info(line);
    assert '\n' !in info;
    var name := if DELETE_PREFIX <= info then info[|DELETE_PREFIX|..] else info[|FILE_PREFIX|..];
    TrimSpaceKeeps(name);
    TrimSpaceTrims(name);
  }

  lemma BodyPrintable(body: seq<string>)
    requires Bare(body) && OneLine(body)
    ensures Bare(Split(Join(body, '\n'), '\n'))
  {
    if body == [] {
      assert Split("", '\n') == [""];
      assert TrimSpace("") == "";
    } else {
      SplitOfJoin(body, '\n');
    }
  }

  lemma OpOfPrintable(line: string, body: seq<string>)
    requires Opens(line).Some? && Opens(line).value.1 != "" && '\n' !in line
    requires Bare(body) && OneLine(body)
    ensures PrintableOp(OpOf(Opens(line).value.0, Opens(line).value.1, body))
  {
    OpensPath(line);
    BodyPrintable(body);
    hide Opens, Trimmed, Bare, Split, Join, Paths.Clean, OneLine;
  }

  lemma AppendPrintable(ops: seq<FileOp>, op: FileOp)
    requires AllPrintable(ops) && Apart(ops) && PrintableOp(op) && !Names(ops, op.path)
    ensures AllPrintable(ops + [op]) && Apart(ops + [op])
  {
    hide PrintableOp;
    forall i | 0 <= i < |ops|
      ensures ops[i].path != op.path
    {
      assert ops[i] in ops;
    }
  }

  lemma {:induction false} ScanPrintable(lines: seq<string>, line: nat, ops: seq<FileOp>)
    requires OneLine(lines) && AllPrintable(ops) && Apart(ops)
    ensures var r := Scan(lines, line, ops); r.Success? ==> AllPrintable(r.value) && Apart(r.value)
    decreases |lines|
  {
    hide IsFence, Opens, OpOf, Names, AllPrintable, Apart, BodyLength, Bare, Scan;
    if lines == [] {
      ScanNothing(line, ops);
    } else if !IsFence(lines[0]) {
      assert [lines[0]] + lines[1..] == lines;
      ScanProse(lines[0], lines[1..], line, ops);
      ScanPrintable(lines[1..], line + 1, ops);
    } else {
      var n := BodyLength(lines[1..]);
      ScanUnfold(lines, n, line, ops);
      if n < |lines| - 1 {
        match Opens(lines[0])
        case None =>
          ScanPrintable(lines[n + 2..], line + n + 2, ops);
        case Some((kind, rawPath)) =>
          if rawPath != "" && !Names(ops, Paths.Clean(rawPath)) {
            var body := lines[1..n + 1];
            BareBody(lines[1..]);
            assert lines[1..][..n] == body;
            assert lines[0] in lines;
            OpOfPrintable(lines[0], body);
            OpOfBody(kind, rawPath, body);
            AppendPrintable(ops, OpOf(kind, rawPath, body));
            ScanPrintable(lines[n + 2..], line + n + 2, ops + [OpOf(kind, rawPath, body)]);
          }
      }
    }
  }

  /** Never zero operations, never one path twice, always operations that can be printed. */
  lemma ParsedIsPrintable(output: string)
    ensures ParseText(output).Success? ==> Printable(ParseText(output).value)
  {
    hide Scan, PrintableOp;
    ScanPrintable(Split(output, '\n'), 0, []);
  }

  /** The operation lists the parser can return are exactly the printable ones. */
  lemma ParserRange(ops: seq<FileOp>)
    ensures (exists output :: ParseText(output) == Success(ops)) <==> Printable(ops)
  {
    hide ParseText, PrintableOp, Apart;
    if output :| ParseText(output) == Success(ops) {
      ParsedIsPrintable(output);
    }
    if Printable(ops) {
      var gaps := seq(|ops| + 1, _ => []);
      EmptyWellFormed();
      ParseOfDocument(ops, gaps);
    }
  }
}
