/** The parser's loops, each equal to the function that specifies it. */
module ParserLoops {
  import opened LineProtocol

  /** Slices `result` have been pushed and the rest of the scan starts at `head`. */
  ghost predicate Scanned(role: Role, i: string, result: seq<string>, head: string) {
    && |head| <= |i| && (head == i <==> result == [])
    && Scan(role, i) == (result + Scan(role, head).0, Scan(role, head).1)
  }

  lemma Starts(role: Role, i: string)
    ensures Scanned(role, i, [], i)
  {
    hide Scan;
    assert [] + Scan(role, i).0 == Scan(role, i).0;
  }

  lemma Advances(role: Role, i: string, result: seq<string>, head: string)
    requires Scanned(role, i, result, head) && ScanRound(role, head).0 > 0
    ensures Scanned(role, i, result + ScanRound(role, head).1, head[ScanRound(role, head).0..])
  {
    hide ScanRound;
    var (n, slices) := ScanRound(role, head);
    var more := Scan(role, head[n..]).0;
    assert result + (slices + more) == result + slices + more;
    assert |head[n..]| < |i|;
  }

  lemma Stops(role: Role, i: string, result: seq<string>, head: string)
    requires Scanned(role, i, result, head) && ScanRound(role, head).0 == 0
    ensures Scan(role, i) == (result, head)
  {
    hide ScanRound;
    assert result + [] == result;
  }

  /** Pushes slices while the head moves forward. */
  method EscapeOrFallback(role: Role, i: string) returns (r: Parsed<EscapedStr>)
    ensures r == Name(role, i)
  {
    hide Scan, Scanned, Escapable, NormalRun;
    var result: seq<string> := [];
    var head := i;
    Starts(role, i);
    while true
      invariant Scanned(role, i, result, head)
      decreases |head|
    {
      if ScanRound(role, head).0 > 0 {
        Advances(role, i, result, head);
      }
      var n := NormalRun(role, head);
      if n > 0 {
        result, head := result + [head[..n]], head[n..];
      } else if StartsWith(head, '\\') {
        var after := head[1..];
        if after == "" {
          result, head := result + ["\\"], after;
          break;
        } else if Escapable(role, after[0]) {
          assert head[2..] == after[1..];
          result, head := result + [[after[0]]], after[1..];
        } else {
          assert head[2..] == after[1..];
          assert result + ["\\"] + [[after[0]]] == result + ["\\", [after[0]]];
          result, head := result + ["\\"] + [[after[0]]], after[1..];
        }
      } else {
        if head == i {
          NothingScanned(role, i, result);
          return Error(Generic);
        }
        break;
      }
    }
    Stops(role, i, result, head);
    r := Checked(role, i, result, head);
  }

  lemma NothingScanned(role: Role, i: string, result: seq<string>)
    requires Scanned(role, i, result, i) && ScanRound(role, i).0 == 0
    ensures Scan(role, i).0 == []
  {
    Stops(role, i, result, i);
  }

  /** A name must not end in a backslash. */
  method Checked(role: Role, i: string, result: seq<string>, head: string) returns (r: Parsed<EscapedStr>)
    requires Scan(role, i) == (result, head) && head != i
    ensures r == Name(role, i)
  {
    hide Scan;
    var s := FromSlices(result);
    if EndsIn(s.text, '\\') {
      return Failure(EndsWithBackslash);
    }
    return Ok(head, s);
  }

  /** A first element that consumes nothing is an error. In the loop the comma before an element has moved the
      input on already, so the same check there never fails. */
  method SeparatedListLoop<T(!new)>(f: string -> Parsed<T>, input: string) returns (r: Parsed<seq<T>>)
    requires NeverGrows(f)
    ensures r == SeparatedList(f, input)
  {
    var i := input;
    var res: seq<T> := [];
    match f(i) {
      case Error(_) => return Ok(i, res);
      case Failure(e) => return Failure(e);
      case Ok(i1, o) =>
        if i1 == i {
          return Error(Generic);
        }
        res, i := [o], i1;
    }
    while true
      invariant SeparatedList(f, input) == ListTail(f, i, res)
      decreases |i|
    {
      if !StartsWith(i, ',') {
        return Ok(i, res);
      }
      var i1 := i[1..];
      match f(i1) {
        case Error(_) => return Ok(i, res);
        case Failure(e) => return Failure(e);
        case Ok(i2, o) =>
          assert |i2| < |i|;
          res, i := res + [o], i2;
      }
    }
  }

  method TrimLeadingLoop(input: string) returns (i: string)
    ensures i == TrimLeading(input)
  {
    i := input;
    while true
      invariant TrimLeading(i) == TrimLeading(input)
      decreases |i|
    {
      i := i[BoundaryRun(i)..];
      if !StartsWith(i, '#') {
        return;
      }
      i := i[NewlineAt(i)..];
    }
  }
}
