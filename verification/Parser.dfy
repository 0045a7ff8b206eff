/** The parser of model output: a fence scanner over lines. */
module Parser {
  import opened Text
  import opened Types
  import Paths

  const FENCE := "```"
  const FILE_PREFIX := "file:"
  const DELETE_PREFIX := "file-delete:"

  predicate IsFence(line: string) {
    FENCE <= TrimSpace(line)
  }

  predicate IsClose(line: string) {
    TrimSpace(line) == FENCE
  }

  function Info(line: string): string
    requires IsFence(line)
  {
    TrimSpace(TrimSpace(line)[|FENCE|..])
  }

  /** What an info string opens: an operation's kind and raw path, or nothing. */
  function ClassifyInfo(info: string): Option<(OpKind, string)> {
    if DELETE_PREFIX <= info then Some((OpDelete, TrimSpace(info[|DELETE_PREFIX|..])))
    else if FILE_PREFIX <= info then Some((OpWrite, TrimSpace(info[|FILE_PREFIX|..])))
    else None
  }

  function Opens(line: string): Option<(OpKind, string)> {
    if IsFence(line) then ClassifyInfo(Info(line)) else None
  }

  /** How many of `lines` precede the first closing fence. */
  function BodyLength(lines: seq<string>): (n: nat)
    ensures n <= |lines|
    ensures forall i :: 0 <= i < n ==> !IsClose(lines[i])
    ensures n < |lines| ==> IsClose(lines[n])
  {
    if lines == [] || IsClose(lines[0]) then 0 else 1 + BodyLength(lines[1..])
  }

  function OpOf(kind: OpKind, rawPath: string, body: seq<string>): FileOp {
    FileOp(kind, rawPath, Paths.Clean(rawPath), if kind == OpWrite then Join(body, '\n') else "")
  }

  predicate Names(ops: seq<FileOp>, path: string) {
    exists op :: op in ops && op.path == path
  }

  /** Scans `rest`, which begins after `line` lines, with `ops` found so far. */
  function Scan(rest: seq<string>, line: nat, ops: seq<FileOp>): Result<seq<FileOp>, ParseError>
    decreases |rest|
  {
    if rest == [] then Success(ops)
    else if !IsFence(rest[0]) then Scan(rest[1..], line + 1, ops)
    else
      var n := BodyLength(rest[1..]);
      match Opens(rest[0])
      case None =>
        if n == |rest| - 1 then Success(ops) else Scan(rest[n + 2..], line + n + 2, ops)
      case Some((kind, rawPath)) =>
        if rawPath == "" then Failure(ParseError(MissingPath, line + 1))
        else if n == |rest| - 1 then Failure(ParseError(UnclosedFence, line + 1))
        else if Names(ops, Paths.Clean(rawPath)) then Failure(ParseError(DuplicatePath, line + 1))
        else Scan(rest[n + 2..], line + n + 2, ops + [OpOf(kind, rawPath, rest[1..n + 1])])
  }

  function Checked(r: Result<seq<FileOp>, ParseError>): Result<seq<FileOp>, ParseError> {
    if r == Success([]) then Failure(ParseError(NoOperations, 0)) else r
  }

  function ParseText(output: string): Result<seq<FileOp>, ParseError> {
    Checked(Scan(Split(output, '\n'), 0, []))
  }

  // ----- the loops -----

  method CollectBody(lines: seq<string>, start: nat) returns (body: string, closeIdx: nat, closed: bool)
    requires start <= |lines|
    ensures closeIdx == start + BodyLength(lines[start..]) && closed == (closeIdx < |lines|)
    ensures closed ==> body == Join(lines[start..closeIdx], '\n')
  {
    var collected := [];
    for i := start to |lines|
      invariant collected == lines[start..i]
      invariant BodyLength(lines[start..]) == i - start + BodyLength(lines[i..])
    {
      if IsClose(lines[i]) {
        return Join(collected, '\n'), i, true;
      }
      assert lines[i..][1..] == lines[i + 1..];
      collected := collected + [lines[i]];
    }
    return "", |lines|, false;
  }

  method SkipToClose(lines: seq<string>, start: nat) returns (next: nat)
    requires start <= |lines|
    ensures var n := start + BodyLength(lines[start..]); next == if n < |lines| then n + 1 else |lines|
  {
    for i := start to |lines|
      invariant BodyLength(lines[start..]) == i - start + BodyLength(lines[i..])
    {
      if IsClose(lines[i]) {
        return i + 1;
      }
      assert lines[i..][1..] == lines[i + 1..];
    }
    return |lines|;
  }

  lemma ScanUnfold(lines: seq<string>, n: nat, line: nat, ops: seq<FileOp>)
    requires lines != [] && IsFence(lines[0]) && n == BodyLength(lines[1..])
    ensures Scan(lines, line, ops) ==
            match Opens(lines[0])
            case None =>
              if n == |lines| - 1 then Success(ops) else Scan(lines[n + 2..], line + n + 2, ops)
            case Some((kind, rawPath)) =>
              if rawPath == "" then Failure(ParseError(MissingPath, line + 1))
              else if n == |lines| - 1 then Failure(ParseError(UnclosedFence, line + 1))
              else if Names(ops, Paths.Clean(rawPath)) then Failure(ParseError(DuplicatePath, line + 1))
              else Scan(lines[n + 2..], line + n + 2, ops + [OpOf(kind, rawPath, lines[1..n + 1])])
  {
    hide IsFence, Opens, Names, OpOf, BodyLength;
  }

  lemma ScanStep(lines: seq<string>, i: nat, ops: seq<FileOp>)
    requires i < |lines|
    ensures var n := BodyLength(lines[i + 1..]);
            Scan(lines[i..], i, ops) ==
            if !IsFence(lines[i]) then Scan(lines[i + 1..], i + 1, ops)
            else
              match ClassifyInfo(Info(lines[i]))
              case None =>
                if i + 1 + n == |lines| then Success(ops) else Scan(lines[i + n + 2..], i + n + 2, ops)
              case Some((kind, rawPath)) =>
                if rawPath == "" then Failure(ParseError(MissingPath, i + 1))
                else if i + 1 + n == |lines| then Failure(ParseError(UnclosedFence, i + 1))
                else if Names(ops, Paths.Clean(rawPath)) then Failure(ParseError(DuplicatePath, i + 1))
                else Scan(lines[i + n + 2..], i + n + 2, ops + [OpOf(kind, rawPath, lines[i + 1..i + 1 + n])])
  {
    hide ClassifyInfo, IsFence, Info, Names, OpOf, BodyLength;
    var rest := lines[i..];
    assert rest[1..] == lines[i + 1..];
    var n := BodyLength(rest[1..]);
    if IsFence(rest[0]) {
      ScanUnfold(rest, n, i, ops);
    }
    if n < |rest| - 1 {
      assert rest[n + 2..] == lines[i + n + 2..];
      assert rest[1..n + 1] == lines[i + 1..i + 1 + n];
    }
  }

  lemma ScanEnd(lines: seq<string>, i: nat, ops: seq<FileOp>)
    requires i == |lines|
    ensures Scan(lines[i..], i, ops) == Success(ops)
  {
  }

  lemma OpOfBody(kind: OpKind, rawPath: string, body: seq<string>)
    ensures OpOf(kind, rawPath, body) ==
            FileOp(kind, rawPath, Paths.Clean(rawPath), if kind == OpWrite then Join(body, '\n') else "")
  {
  }

  lemma NamesNothing()
    ensures forall path :: !Names([], path)
  {
  }

  lemma NamesLonger(ops: seq<FileOp>, op: FileOp)
    ensures forall path :: Names(ops + [op], path) <==> Names(ops, path) || path == op.path
  {
    forall path
      ensures Names(ops + [op], path) <==> Names(ops, path) || path == op.path
    {
      assert op in ops + [op];
      assert forall o :: o in ops + [op] <==> o in ops || o == op;
    }
  }

  lemma ParseTextFrom(output: string, r: Result<seq<FileOp>, ParseError>)
    requires Scan(Split(output, '\n'), 0, []) == r
    ensures ParseText(output) == if r == Success([]) then Failure(ParseError(NoOperations, 0)) else r
  {
  }

  method Parse(output: string) returns (r: Result<seq<FileOp>, ParseError>)
    ensures r == ParseText(output)
  {
    hide *;
    var lines := Split(output, '\n');
    var ops: seq<FileOp> := [];
    var seen: map<string, nat> := map[];
    var i := 0;
    assert lines[0..] == lines;
    NamesNothing();
    while i < |lines|
      invariant 0 <= i <= |lines|
      invariant Scan(lines, 0, []) == Scan(lines[i..], i, ops)
      invariant forall path :: path in seen <==> Names(ops, path)
    {
      ScanStep(lines, i, ops);
      if !IsFence(lines[i]) {
        i := i + 1;
        continue;
      }
      var openLine := i + 1;
      match ClassifyInfo(Info(lines[i])) {
        case None =>
          ScanEnd(lines, |lines|, ops);
          i := SkipToClose(lines, i + 1);
        case Some((kind, rawPath)) =>
          if rawPath == "" {
            r := Failure(ParseError(MissingPath, openLine));
            ParseTextFrom(output, r);
            return;
          }
          var body, closeIdx, closed := CollectBody(lines, i + 1);
          if !closed {
            r := Failure(ParseError(UnclosedFence, openLine));
            ParseTextFrom(output, r);
            return;
          }
          var cleanPath := Paths.Clean(rawPath);
          if cleanPath in seen {
            r := Failure(ParseError(DuplicatePath, openLine));
            ParseTextFrom(output, r);
            return;
          }
          seen := seen[cleanPath := openLine];
          var op := FileOp(kind, rawPath, cleanPath, if kind == OpWrite then body else "");
          OpOfBody(kind, rawPath, lines[i + 1..closeIdx]);
          NamesLonger(ops, op);
          ops := ops + [op];
          i := closeIdx + 1;
      }
    }
    ScanEnd(lines, i, ops);
    ParseTextFrom(output, Success(ops));
    if |ops| == 0 {
      return Failure(ParseError(NoOperations, 0));
    }
    return Success(ops);
  }
}
