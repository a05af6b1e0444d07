/** How a batch is cut into lines. */
module LineFraming {
  import opened Basics
  import opened LineProtocol

  // ---------------------------------------------------------------------------------------------
  // Any input
  // ---------------------------------------------------------------------------------------------

  function Join(pieces: seq<string>): string
    requires pieces != []
  {
    if |pieces| == 1 then pieces[0] else pieces[0] + "\n" + Join(pieces[1..])
  }

  /** No character is lost: the pieces joined with newlines are the input. */
  lemma {:induction false} PiecesRejoin(st: SplitState, input: string)
    ensures Join(Pieces(st, input)) == input
    decreases |input|
  {
    if input != "" {
      var (st', split) := SplitStep(st, input[0]);
      var pieces := Pieces(st', input[1..]);
      PiecesRejoin(st', input[1..]);
      assert input == [input[0]] + input[1..];
      if split {
        assert input[0] == '\n';
        assert ([""] + pieces)[1..] == pieces;
        assert Join([""] + pieces) == "\n" + input[1..];
      } else {
        var joined := [[input[0]] + pieces[0]] + pieces[1..];
        assert joined[1..] == pieces[1..];
        assert Join(joined) == [input[0]] + Join(pieces);
      }
    }
  }

  /** `more` continues the open piece; the pieces before it are closed. */
  function Continued(pieces: seq<string>, piece: string, more: seq<string>): seq<string>
    requires more != []
  {
    pieces + [piece + more[0]] + more[1..]
  }

  /** The loop form: the pieces already closed, the open piece, and the state. */
  method SplitLinesLoop(input: string) returns (pieces: seq<string>)
    ensures pieces == SplitLines(input)
  {
    pieces := [];
    var piece := "";
    var st := START;
    assert input[0..] == input && "" + Pieces(START, input)[0] == Pieces(START, input)[0];
    for i := 0 to |input|
      invariant SplitLines(input) == Continued(pieces, piece, Pieces(st, input[i..]))
    {
      var (st', split) := SplitStep(st, input[i]);
      assert input[i..][1..] == input[i + 1..];
      ghost var rest := Pieces(st', input[i + 1..]);
      if split {
        assert Pieces(st, input[i..]) == [""] + rest;
        assert piece + "" == piece && "" + rest[0] == rest[0];
        assert Continued(pieces, piece, [""] + rest) == Continued(pieces + [piece], "", rest);
        pieces, piece := pieces + [piece], "";
      } else {
        assert Pieces(st, input[i..]) == [[input[i]] + rest[0]] + rest[1..];
        assert piece + ([input[i]] + rest[0]) == piece + [input[i]] + rest[0];
        piece := piece + [input[i]];
      }
      st := st';
    }
    assert input[|input|..] == "" && piece + "" == piece;
    pieces := pieces + [piece];
  }

  // ---------------------------------------------------------------------------------------------
  // Feeding text that is not split
  // ---------------------------------------------------------------------------------------------

  /** The state after `s`, if `s` is not split anywhere. */
  function Feed(st: SplitState, s: string): Option<SplitState>
    decreases |s|
  {
    if s == "" then Some(st)
    else
      var (st', split) := SplitStep(st, s[0]);
      if split then None else Feed(st', s[1..])
  }

  lemma {:induction false} FeedAppend(st: SplitState, a: string, b: string)
    requires Feed(st, a).Some?
    ensures Feed(st, a + b) == Feed(Feed(st, a).value, b)
    decreases |a|
  {
    if a == "" {
      assert a + b == b;
    } else {
      assert (a + b)[1..] == a[1..] + b;
      FeedAppend(SplitStep(st, a[0]).0, a[1..], b);
    }
  }

  lemma {:induction false} PiecesFeed(st: SplitState, a: string, rest: string)
    requires Feed(st, a).Some?
    ensures var pieces := Pieces(Feed(st, a).value, rest);
            Pieces(st, a + rest) == [a + pieces[0]] + pieces[1..]
    decreases |a|
  {
    var pieces := Pieces(Feed(st, a).value, rest);
    if a == "" {
      assert a + rest == rest;
      assert a + pieces[0] == pieces[0];
    } else {
      assert (a + rest)[1..] == a[1..] + rest;
      PiecesFeed(SplitStep(st, a[0]).0, a[1..], rest);
      assert [a[0]] + (a[1..] + pieces[0]) == a + pieces[0];
    }
  }

  /** Text that leaves the splitter outside quotes and escapes is cut off by the next newline. */
  lemma PiecesNewline(st: SplitState, a: string, rest: string)
    requires Feed(st, a).Some? && !Feed(st, a).value.quoted && !Feed(st, a).value.inEscape
    ensures Pieces(st, a + "\n" + rest) == [a] + Pieces(START, rest)
  {
    var st' := Feed(st, a).value;
    PiecesFeed(st, a, "\n" + rest);
    assert a + "\n" + rest == a + ("\n" + rest);
    assert ("\n" + rest)[1..] == rest;
    assert Pieces(st', "\n" + rest) == [""] + Pieces(START, rest);
    assert a + "" == a;
  }

  // ---------------------------------------------------------------------------------------------
  // The parts of a built line
  // ---------------------------------------------------------------------------------------------

  predicate Special(c: char) {
    c == '\\' || c == ' ' || c == '=' || c == ',' || c == '"' || c == '\n'
  }

  lemma {:induction false} FeedPlain(st: SplitState, s: string)
    requires !st.inEscape && forall c <- s :: !Special(c)
    ensures Feed(st, s) == Some(st)
  {
    if s != "" {
      assert s[0] in s;
      FeedPlain(st, s[1..]);
    }
  }

  lemma FeedOne(st: SplitState, c: char)
    requires !SplitStep(st, c).1
    ensures Feed(st, [c]) == Some(SplitStep(st, c).0)
  {
    assert [c][1..] == "";
  }

  /** A backslash and the character after it pass whatever that character is. */
  lemma FeedEscaped(st: SplitState, c: char)
    requires !st.inEscape
    ensures Feed(st, ['\\', c]) == Some(st)
  {
    FeedOne(st.(inEscape := true), c);
    assert ['\\', c][1..] == [c];
  }

  /** Before the fields nothing but an unescaped space matters; in a field key the splitter is not after an
      unmatched `=`, so quotes do not matter either. */
  predicate InName(st: SplitState) {
    !st.quoted && !st.inEscape && (st.fields ==> st.equals <= st.commas)
  }

  lemma {:induction false} FeedName(st: SplitState, s: string, special: set<char>)
    requires InName(st) && '\n' !in s && ' ' in special && (st.fields ==> '=' in special && ',' in special)
    ensures Feed(st, Escape(s, special)) == Some(st)
  {
    if s != "" {
      assert s[0] in s;
      FeedName(st, s[1..], special);
      var head := EscapeChar(s[0], special);
      FeedEscapeChar(st, s[0], special);
      FeedAppend(st, head, Escape(s[1..], special));
    }
  }

  lemma FeedEscapeChar(st: SplitState, c: char, special: set<char>)
    requires InName(st) && c != '\n' && ' ' in special && (st.fields ==> '=' in special && ',' in special)
    ensures Feed(st, EscapeChar(c, special)) == Some(st)
  {
    if c in special || c == '\\' {
      FeedEscaped(st, c);
    } else {
      FeedOne(st, c);
    }
  }

  lemma {:induction false} FeedQuoted(st: SplitState, s: string)
    requires st.quoted && st.fields && !st.inEscape
    ensures Feed(st, Escape(s, DOUBLE_QUOTE)) == Some(st)
  {
    if s != "" {
      FeedQuoted(st, s[1..]);
      var head := EscapeChar(s[0], DOUBLE_QUOTE);
      if s[0] in DOUBLE_QUOTE || s[0] == '\\' {
        FeedEscaped(st, s[0]);
      } else {
        FeedOne(st, s[0]);
      }
      FeedAppend(st, head, Escape(s[1..], DOUBLE_QUOTE));
    }
  }

  /** The splitter after `equals` unescaped `=` and `commas` unescaped `,` of the fields. */
  function FieldState(equals: nat, commas: nat): SplitState {
    SplitState(false, true, equals, commas, false)
  }

  lemma {:induction false} DecimalIsPlain(n: nat)
    ensures forall c <- Decimal(n) :: IsDigit(c)
  {
    if n >= 10 {
      DecimalIsPlain(n / 10);
    }
  }

  lemma DecimalTextIsPlain(s: DecimalText)
    ensures forall c <- s :: !Special(c)
  {
    var n := IntegralLength(s);
    forall k | 0 <= k < |s|
      ensures !Special(s[k])
    {
      if n < k {
        assert s[k] == s[n + 1..][k - n - 1];
      } else if k < n && s[0] == '-' && k > 0 {
        assert s[k] == s[1..][k - 1];
      }
    }
  }

  lemma FeedSignedDecimal(st: SplitState, v: int)
    requires !st.inEscape
    ensures Feed(st, SignedDecimal(v)) == Some(st)
  {
    DecimalIsPlain(if v < 0 then -v else v);
    FeedPlain(st, SignedDecimal(v));
  }

  lemma FeedString(st: SplitState, s: string)
    requires !st.inEscape && !st.quoted && st.fields && st.equals > st.commas
    ensures Feed(st, "\"" + Escape(s, DOUBLE_QUOTE) + "\"") == Some(st)
  {
    var open := st.(quoted := true);
    FeedOne(st, '"');
    FeedQuoted(open, s);
    FeedOne(open, '"');
    FeedAppend(st, "\"", Escape(s, DOUBLE_QUOTE));
    FeedAppend(st, "\"" + Escape(s, DOUBLE_QUOTE), "\"");
  }

  /** A field value leaves the state alone, whatever newlines and quotes a string value holds. */
  lemma FeedValue(st: SplitState, v: Value)
    requires !st.inEscape && !st.quoted && st.fields && st.equals > st.commas
    ensures Feed(st, ValueText(v)) == Some(st)
  {
    match v
    case Int(i) =>
      FeedSignedDecimal(st, i);
      FeedOne(st, 'i');
      FeedAppend(st, SignedDecimal(i), "i");
    case UInt(u) =>
      FeedSignedDecimal(st, u);
      FeedOne(st, 'u');
      FeedAppend(st, Decimal(u), "u");
    case Float(text) =>
      DecimalTextIsPlain(text);
      FeedPlain(st, text);
    case Str(s) => FeedString(st, s);
    case Bool(b) => FeedPlain(st, ValueText(v));
  }

  lemma FeedTagKey(key: string)
    requires '\n' !in key
    ensures Feed(START, "," + Escape(key, COMMA_EQ_SPACE)) == Some(START)
  {
    hide Escape;
    FeedOne(START, ',');
    FeedName(START, key, COMMA_EQ_SPACE);
    FeedAppend(START, ",", Escape(key, COMMA_EQ_SPACE));
  }

  lemma FeedTag(key: string, value: string)
    requires '\n' !in key && '\n' !in value
    ensures Feed(START, "," + Escape(key, COMMA_EQ_SPACE) + "=" + Escape(value, COMMA_EQ_SPACE)) == Some(START)
  {
    hide Escape;
    FeedTagKey(key);
    FeedOne(START, '=');
    FeedName(START, value, COMMA_EQ_SPACE);
    FeedAppend(START, "," + Escape(key, COMMA_EQ_SPACE), "=");
    FeedAppend(START, "," + Escape(key, COMMA_EQ_SPACE) + "=", Escape(value, COMMA_EQ_SPACE));
  }

  predicate TagsFit(tags: seq<(string, string)>) {
    forall k :: 0 <= k < |tags| ==> '\n' !in tags[k].0 && '\n' !in tags[k].1
  }

  predicate FieldsFit(fields: seq<(string, Value)>) {
    forall k :: 0 <= k < |fields| ==> '\n' !in fields[k].0
  }

  lemma {:induction false} FeedTags(tags: seq<(string, string)>)
    requires TagsFit(tags)
    ensures Feed(START, TagsText(tags)) == Some(START)
  {
    hide Escape;
    if tags != [] {
      FeedTags(tags[1..]);
      FeedTag(tags[0].0, tags[0].1);
      var tag := "," + Escape(tags[0].0, COMMA_EQ_SPACE) + "=" + Escape(tags[0].1, COMMA_EQ_SPACE);
      assert TagsText(tags) == tag + TagsText(tags[1..]);
      FeedAppend(START, tag, TagsText(tags[1..]));
    }
  }

  lemma FeedKey(n: nat, key: string)
    requires '\n' !in key
    ensures Feed(FieldState(n, n), Escape(key, COMMA_EQ_SPACE)) == Some(FieldState(n, n))
  {
    FeedName(FieldState(n, n), key, COMMA_EQ_SPACE);
  }

  /** A field takes the splitter past one more `=`. */
  lemma FeedField(n: nat, f: (string, Value))
    requires '\n' !in f.0
    ensures Feed(FieldState(n, n), FieldText(f)) == Some(FieldState(n + 1, n))
  {
    hide Escape, ValueText;
    var st := FieldState(n, n);
    FeedKey(n, f.0);
    FeedOne(st, '=');
    FeedValue(FieldState(n + 1, n), f.1);
    FeedAppend(st, Escape(f.0, COMMA_EQ_SPACE), "=");
    FeedAppend(st, Escape(f.0, COMMA_EQ_SPACE) + "=", ValueText(f.1));
  }

  lemma FeedComma(n: nat, s: string)
    ensures Feed(FieldState(n + 1, n), "," + s) == Feed(FieldState(n + 1, n + 1), s)
  {
    FeedOne(FieldState(n + 1, n), ',');
    FeedAppend(FieldState(n + 1, n), ",", s);
  }

  lemma {:induction false} FeedFields(n: nat, fields: seq<(string, Value)>)
    requires FieldsFit(fields)
    ensures Feed(FieldState(n + 1, n), FieldsText(fields)) == Some(FieldState(n + 1 + |fields|, n + |fields|))
    decreases |fields|
  {
    hide FieldText, Feed;
    if fields == [] {
      FeedPlain(FieldState(n + 1, n), "");
    } else {
      FeedFields(n + 1, fields[1..]);
      FeedField(n + 1, fields[0]);
      FeedAppend(FieldState(n + 1, n + 1), FieldText(fields[0]), FieldsText(fields[1..]));
      FeedComma(n, FieldText(fields[0]) + FieldsText(fields[1..]));
      assert FieldsText(fields) == "," + (FieldText(fields[0]) + FieldsText(fields[1..]));
    }
  }

  predicate LineFits(l: Line) {
    '\n' !in l.measurement && TagsFit(l.tags) && FieldsFit(l.fields)
  }

  lemma FeedMeasurement(m: string)
    requires '\n' !in m
    ensures Feed(START, Escape(m, COMMA_SPACE)) == Some(START)
  {
    FeedName(START, m, COMMA_SPACE);
  }

  lemma FeedSeries(m: string, tags: seq<(string, string)>)
    requires '\n' !in m && TagsFit(tags)
    ensures Feed(START, Escape(m, COMMA_SPACE) + TagsText(tags) + " ") == Some(FieldState(0, 0))
  {
    hide Escape, TagsText;
    FeedMeasurement(m);
    FeedTags(tags);
    FeedAppend(START, Escape(m, COMMA_SPACE), TagsText(tags));
    FeedOne(START, ' ');
    FeedAppend(START, Escape(m, COMMA_SPACE) + TagsText(tags), " ");
  }

  lemma FeedTimestamp(st: SplitState, t: Option<I64>)
    requires st.fields && !st.inEscape
    ensures Feed(st, TimestampText(t)) == Some(st)
  {
    if t.Some? {
      FeedSignedDecimal(st, t.value);
      FeedOne(st, ' ');
      FeedAppend(st, " ", SignedDecimal(t.value));
    }
  }

  lemma FeedLine(l: Line)
    requires l.fields != [] && LineFits(l)
    ensures Feed(START, LineText(l)) == Some(FieldState(|l.fields|, |l.fields| - 1))
  {
    hide Escape, TagsText, FieldText, FieldsText, TimestampText, Feed;
    var series := Escape(l.measurement, COMMA_SPACE) + TagsText(l.tags) + " ";
    FeedSeries(l.measurement, l.tags);
    FeedField(0, l.fields[0]);
    FeedFields(0, l.fields[1..]);
    FeedTimestamp(FieldState(|l.fields|, |l.fields| - 1), l.timestamp);
    FeedAppend(START, series, FieldText(l.fields[0]));
    FeedAppend(START, series + FieldText(l.fields[0]), FieldsText(l.fields[1..]));
    FeedAppend(START, series + FieldText(l.fields[0]) + FieldsText(l.fields[1..]), TimestampText(l.timestamp));
  }

  /** A built line whose names hold no newline is one piece, and the splitter starts over after it, even
      though its string values may hold newlines. */
  lemma BuiltLineIsOnePiece(l: Line, rest: string)
    requires l.fields != [] && LineFits(l)
    ensures SplitLines(LineText(l) + "\n" + rest) == [LineText(l)] + SplitLines(rest)
  {
    hide LineText, Feed, Pieces;
    FeedLine(l);
    PiecesNewline(START, LineText(l), rest);
  }

  /** Cutting a built batch gives the text of its lines, and an empty piece after the last newline. */
  lemma {:induction false} BatchIsFramed(lines: seq<Line>)
    requires Built(lines) && forall l <- lines :: LineFits(l)
    ensures SplitLines(BatchText(lines)) == seq(|lines|, k requires 0 <= k < |lines| => LineText(lines[k])) + [""]
  {
    hide LineText, LineFits, Pieces;
    if lines == [] {
      EmptyPiece();
    } else {
      BatchIsFramed(lines[1..]);
      BuiltLineIsOnePiece(lines[0], BatchText(lines[1..]));
    }
  }

  lemma EmptyPiece()
    ensures SplitLines("") == [""]
  {
  }

  // ---------------------------------------------------------------------------------------------
  // A newline in a name
  // ---------------------------------------------------------------------------------------------

  lemma {:induction false} SplitStays(st: SplitState, a: string, b: string)
    requires Feed(st, a).None?
    ensures Feed(st, a + b).None?
    decreases |a|
  {
    assert (a + b)[0] == a[0] && (a + b)[1..] == a[1..] + b;
    if !SplitStep(st, a[0]).1 {
      SplitStays(SplitStep(st, a[0]).0, a[1..], b);
    }
  }

  /** Text behind text that passes is split where it would be on its own. */
  lemma SplitLater(st: SplitState, a: string, st': SplitState, b: string, c: string)
    requires Feed(st, a) == Some(st') && Feed(st', b).None?
    ensures Feed(st, a + b + c).None?
  {
    FeedAppend(st, a, b);
    SplitStays(st, a + b, c);
  }

  lemma {:induction false} NameIsSplit(st: SplitState, s: string, special: set<char>)
    requires InName(st) && '\n' in s && '\n' !in special && ' ' in special
    requires st.fields ==> '=' in special && ',' in special
    ensures Feed(st, Escape(s, special)).None?
  {
    var head, tail := EscapeChar(s[0], special), Escape(s[1..], special);
    if s[0] == '\n' {
      assert Feed(st, head).None?;
      SplitStays(st, head, tail);
    } else {
      FeedEscapeChar(st, s[0], special);
      NameIsSplit(st, s[1..], special);
      FeedAppend(st, head, tail);
    }
  }

  lemma TagIsSplit(key: string, value: string, c: string)
    requires '\n' in key || '\n' in value
    ensures Feed(START, "," + TagText((key, value)) + c).None?
  {
    hide Escape, Feed;
    var k, v := Escape(key, COMMA_EQ_SPACE), Escape(value, COMMA_EQ_SPACE);
    if '\n' in key {
      NameIsSplit(START, key, COMMA_EQ_SPACE);
      FeedOne(START, ',');
      SplitLater(START, ",", START, k, "=" + v + c);
      assert "," + k + ("=" + v + c) == "," + TagText((key, value)) + c;
    } else {
      NameIsSplit(START, value, COMMA_EQ_SPACE);
      FeedTagKey(key);
      FeedOne(START, '=');
      FeedAppend(START, "," + k, "=");
      SplitLater(START, "," + k + "=", START, v, c);
      assert "," + k + "=" + v + c == "," + TagText((key, value)) + c;
    }
  }

  lemma {:induction false} TagsAreSplit(tags: seq<(string, string)>)
    requires !TagsFit(tags)
    ensures Feed(START, TagsText(tags)).None?
  {
    hide Escape, TagText, Feed;
    var (key, value) := tags[0];
    var tag, more := "," + TagText(tags[0]), TagsText(tags[1..]);
    if '\n' in key || '\n' in value {
      TagIsSplit(key, value, more);
    } else {
      TagsAreSplit(tags[1..]);
      FeedTags([tags[0]]);
      assert TagsText([tags[0]]) == tag + "" == tag by { assert [tags[0]][1..] == []; }
      FeedAppend(START, tag, more);
    }
  }

  lemma KeyIsSplit(n: nat, f: (string, Value), c: string)
    requires '\n' in f.0
    ensures Feed(FieldState(n, n), FieldText(f) + c).None?
  {
    hide Escape, ValueText, Feed;
    NameIsSplit(FieldState(n, n), f.0, COMMA_EQ_SPACE);
    SplitStays(FieldState(n, n), Escape(f.0, COMMA_EQ_SPACE), "=" + ValueText(f.1) + c);
    assert Escape(f.0, COMMA_EQ_SPACE) + ("=" + ValueText(f.1) + c) == FieldText(f) + c;
  }

  lemma {:induction false} FieldsAreSplit(n: nat, fields: seq<(string, Value)>)
    requires !FieldsFit(fields)
    ensures Feed(FieldState(n, n), FieldText(fields[0]) + FieldsText(fields[1..])).None?
    decreases |fields|
  {
    hide FieldText, Feed, IsDecimalText, IntegralLength, DigitRun;
    var field, more := FieldText(fields[0]), FieldsText(fields[1..]);
    if '\n' in fields[0].0 {
      KeyIsSplit(n, fields[0], more);
    } else {
      var next := fields[1..];
      FieldsAreSplit(n + 1, next);
      assert more == "," + (FieldText(next[0]) + FieldsText(next[1..]));
      FeedComma(n, FieldText(next[0]) + FieldsText(next[1..]));
      FeedField(n, fields[0]);
      FeedAppend(FieldState(n, n), field, more);
    }
  }

  /** A newline in a name splits the line there. */
  lemma LineIsSplit(l: Line)
    requires l.fields != [] && !LineFits(l)
    ensures Feed(START, LineText(l)).None?
  {
    hide Escape, TagsText, FieldText, FieldsText, TimestampText, Feed, TagsFit, FieldsFit, IsDecimalText;
    hide IntegralLength, DigitRun;
    var m, tags, ts := Escape(l.measurement, COMMA_SPACE), TagsText(l.tags), TimestampText(l.timestamp);
    var fields := FieldText(l.fields[0]) + FieldsText(l.fields[1..]);
    if '\n' in l.measurement {
      NameIsSplit(START, l.measurement, COMMA_SPACE);
      SplitStays(START, m, tags + " " + fields + ts);
      assert m + (tags + " " + fields + ts) == LineText(l);
    } else if !TagsFit(l.tags) {
      FeedMeasurement(l.measurement);
      TagsAreSplit(l.tags);
      SplitLater(START, m, START, tags, " " + fields + ts);
      assert m + tags + (" " + fields + ts) == LineText(l);
    } else {
      FeedSeries(l.measurement, l.tags);
      FieldsAreSplit(0, l.fields);
      SplitLater(START, m + tags + " ", FieldState(0, 0), fields, ts);
      assert m + tags + " " + fields + ts == LineText(l);
    }
  }

  lemma {:induction false} SplitPieceIsShorter(st: SplitState, text: string, rest: string)
    requires Feed(st, text).None?
    ensures |Pieces(st, text + rest)[0]| < |text|
    decreases |text|
  {
    assert (text + rest)[0] == text[0] && (text + rest)[1..] == text[1..] + rest;
    if !SplitStep(st, text[0]).1 {
      SplitPieceIsShorter(SplitStep(st, text[0]).0, text[1..], rest);
    }
  }

  ghost predicate Framed(lines: seq<Line>)
    requires Built(lines)
  {
    SplitLines(BatchText(lines)) == seq(|lines|, k requires 0 <= k < |lines| => LineText(lines[k])) + [""]
  }

  /** A built batch is cut into its lines if and only if no measurement, tag or field key holds a newline. */
  lemma {:induction false} FramedIff(lines: seq<Line>)
    requires Built(lines)
    ensures Framed(lines) <==> forall l <- lines :: LineFits(l)
  {
    hide LineText, LineFits, Pieces;
    if forall l <- lines :: LineFits(l) {
      BatchIsFramed(lines);
    } else {
      var l, rest := lines[0], BatchText(lines[1..]);
      if LineFits(l) {
        FramedIff(lines[1..]);
        BuiltLineIsOnePiece(l, rest);
        FramedTail(lines);
      } else {
        LineIsSplit(l);
        assert LineText(l) + "\n" + rest == LineText(l) + ("\n" + rest);
        SplitPieceIsShorter(START, LineText(l), "\n" + rest);
      }
    }
  }

  lemma FramedTail(lines: seq<Line>)
    requires Built(lines) && lines != []
    requires SplitLines(BatchText(lines)) == [LineText(lines[0])] + SplitLines(BatchText(lines[1..]))
    ensures Framed(lines) ==> Framed(lines[1..])
  {
    hide LineText, Pieces, BatchText;
    var texts := seq(|lines|, k requires 0 <= k < |lines| => LineText(lines[k]));
    var tail := seq(|lines| - 1, k requires 0 <= k < |lines| - 1 => LineText(lines[1..][k]));
    assert texts == [LineText(lines[0])] + tail;
    if Framed(lines) {
      assert SplitLines(BatchText(lines)) == [LineText(lines[0])] + (tail + [""]);
      assert SplitLines(BatchText(lines))[1..] == tail + [""];
      assert ([LineText(lines[0])] + SplitLines(BatchText(lines[1..])))[1..] == SplitLines(BatchText(lines[1..]));
    }
  }

  /** A newline in a measurement: the line is cut in two. */
  lemma NewlineIsNotFramed()
    ensures !Framed([Line("a\nb", [], [("f", Bool(true))], None)])
  {
    var l := Line("a\nb", [], [("f", Bool(true))], None);
    assert l.measurement[1] == '\n';
    hide Framed;
    FramedIff([l]);
    assert l in [l];
  }
}
