/** A batch is read back as it was built exactly if every line of it is well-formed. */
module BatchRoundTrip {
  import opened Basics
  import opened LineProtocol
  import opened LineFraming
  import opened RoundTrip

  // ---------------------------------------------------------------------------------------------
  // What names the parser can produce
  // ---------------------------------------------------------------------------------------------

  predicate IsBreak(c: char) {
    c == '\t' || c == '\n'
  }

  /** Every tab and newline comes right after a backslash. */
  predicate BreaksFollowBackslash(s: string) {
    forall k :: 0 <= k < |s| && IsBreak(s[k]) ==> k > 0 && s[k - 1] == '\\'
  }

  predicate Readable(s: string) {
    s != "" && !EndsIn(s, '\\') && BreaksFollowBackslash(s)
  }

  lemma BreaksAppend(a: string, b: string)
    requires BreaksFollowBackslash(a) && BreaksFollowBackslash(b)
    ensures BreaksFollowBackslash(a + b)
  {
    forall k | 0 <= k < |a + b| && IsBreak((a + b)[k])
      ensures k > 0 && (a + b)[k - 1] == '\\'
    {
      if k >= |a| {
        assert IsBreak(b[k - |a|]);
      }
    }
  }

  lemma {:induction false} UnescapedBreaks(role: Role, i: string)
    ensures BreaksFollowBackslash(Unescape(role, i))
    decreases |i|
  {
    var (n, text) := Unit(role, i);
    if n > 0 {
      UnescapedBreaks(role, i[n..]);
      BreaksAppend(text, Unescape(role, i[n..]));
    }
  }

  lemma NameIsReadable(role: Role, i: string)
    requires Name(role, i).Ok?
    ensures Readable(Name(role, i).value.text)
    ensures i[0] != '#' ==> Name(role, i).value.text[0] != '#'
  {
    hide Scan;
    var slices := Scan(role, i).0;
    ScanIsUnescape(role, i);
    FromSlicesText(slices);
    UnescapedBreaks(role, i);
    FirstUnit(role, i);
  }

  lemma FirstUnit(role: Role, i: string)
    requires Leftover(role, i) != i
    ensures Unescape(role, i) != "" && (i[0] != '#' ==> Unescape(role, i)[0] != '#')
  {
  }

  predicate ReadableTags(tags: seq<(EscapedStr, EscapedStr)>) {
    forall k :: 0 <= k < |tags| ==> Readable(tags[k].0.text) && Readable(tags[k].1.text)
  }

  predicate ReadableFields(fields: seq<(EscapedStr, FieldValue)>) {
    forall k :: 0 <= k < |fields| ==> Readable(fields[k].0.text)
  }

  lemma TagIsReadable(i: string)
    requires OneTag(i).Ok?
    ensures ReadableTags([OneTag(i).value])
  {
    hide Name, Readable;
    NameIsReadable(Key, i);
    NameIsReadable(TagValue, Name(Key, i).rest[1..]);
  }

  lemma FieldIsReadable(i: string)
    requires OneField(i).Ok?
    ensures ReadableFields([OneField(i).value])
  {
    hide Name, Readable, FieldValueOf;
    NameIsReadable(Key, i);
  }

  lemma {:induction false} TagTailIsReadable(i: string, res: seq<(EscapedStr, EscapedStr)>)
    requires ReadableTags(res) && ListTail(OneTag, i, res).Ok?
    ensures ReadableTags(ListTail(OneTag, i, res).value)
    decreases |i|
  {
    hide OneTag, Readable;
    if StartsWith(i, ',') && OneTag(i[1..]).Ok? {
      TagIsReadable(i[1..]);
      TagTailIsReadable(OneTag(i[1..]).rest, res + [OneTag(i[1..]).value]);
    }
  }

  lemma {:induction false} FieldTailIsReadable(i: string, res: seq<(EscapedStr, FieldValue)>)
    requires ReadableFields(res) && ListTail(OneField, i, res).Ok?
    ensures ReadableFields(ListTail(OneField, i, res).value)
    decreases |i|
  {
    hide OneField, Readable;
    if StartsWith(i, ',') && OneField(i[1..]).Ok? {
      FieldIsReadable(i[1..]);
      FieldTailIsReadable(OneField(i[1..]).rest, res + [OneField(i[1..]).value]);
    }
  }

  lemma SeriesIsReadable(i: string)
    requires SeriesOf(i).Ok?
    ensures var s := SeriesOf(i).value;
            && Readable(s.measurement.text) && (i[0] != '#' ==> s.measurement.text[0] != '#')
            && (s.tagSet.Some? ==> ReadableTags(s.tagSet.value))
  {
    hide Name, OneTag, ListTail, Readable;
    NameIsReadable(Measurement, i);
    assert Readable(Name(Measurement, i).value.text);
    var rest := Name(Measurement, i).rest;
    if StartsWith(rest, ',') && OneTag(rest[1..]).Ok? {
      TagIsReadable(rest[1..]);
      TagTailIsReadable(OneTag(rest[1..]).rest, [OneTag(rest[1..]).value]);
    }
  }

  lemma FieldSetIsReadable(i: string)
    requires FieldSet(i).Ok?
    ensures ReadableFields(FieldSet(i).value)
  {
    hide OneField, ListTail, Readable;
    FieldIsReadable(i);
    var first, rest := OneField(i).value, OneField(i).rest;
    if StartsWith(rest, ',') && OneField(rest[1..]).Ok? {
      FieldIsReadable(rest[1..]);
      var second := OneField(rest[1..]).value;
      assert [first, second] == [first] + [second];
      FieldTailIsReadable(OneField(rest[1..]).rest, [first, second]);
    }
  }

  /** What every line the parser accepts looks like. */
  predicate ReadableLine(p: ParsedLine) {
    && Readable(p.series.measurement.text) && p.series.measurement.text[0] != '#'
    && (p.series.tagSet.Some? ==> ReadableTags(p.series.tagSet.value))
    && ReadableFields(p.fieldSet)
  }

  lemma PieceIsReadable(piece: string)
    ensures forall r <- ParsePiece(piece) :: r.Good? ==> ReadableLine(r.line)
  {
    hide SeriesOf, FieldSet, OptTimestamp, TrimLeading, Readable;
    var i := TrimLeading(piece);
    if i != "" && ParseLine(i).Ok? {
      SeriesIsReadable(i);
      var rest := SeriesOf(i).rest;
      FieldSetIsReadable(rest[SpaceRun(rest)..]);
    }
  }

  lemma {:induction false} PiecesAreReadable(pieces: seq<string>)
    ensures forall r <- ParsePieces(pieces) :: r.Good? ==> ReadableLine(r.line)
  {
    hide ParsePiece, ReadableLine;
    if pieces != [] {
      PieceIsReadable(pieces[0]);
      PiecesAreReadable(pieces[1..]);
    }
  }

  /** Whatever the input, an accepted line has no empty name, none that ends in a backslash, no tab or newline
      but after a backslash, and a measurement that does not start with `#`. */
  lemma AcceptedLinesAreReadable(input: string, k: nat)
    requires k < |ParseLines(input)| && ParseLines(input)[k].Good?
    ensures ReadableLine(ParseLines(input)[k].line)
  {
    hide ParsePieces, ReadableLine;
    PiecesAreReadable(SplitLines(input));
    assert ParseLines(input)[k] in ParseLines(input);
  }

  // ---------------------------------------------------------------------------------------------
  // Where a line with a tab or newline in a name goes wrong
  // ---------------------------------------------------------------------------------------------

  /** The text before the first tab or newline. */
  function UntilBreak(s: string): (r: string)
    ensures NoTabOrNewline(r) && |r| <= |s| && r == s[..|r|]
    ensures |r| < |s| ==> IsBreak(s[|r|])
    ensures NoTabOrNewline(s) ==> r == s
  {
    if s == "" || IsBreak(s[0]) then "" else [s[0]] + UntilBreak(s[1..])
  }

  function TagsUntilBreak(tags: seq<(string, string)>): string {
    if tags == [] then ""
    else if !NoTabOrNewline(tags[0].0) then "," + Escape(UntilBreak(tags[0].0), COMMA_EQ_SPACE)
    else if !NoTabOrNewline(tags[0].1) then
      "," + Escape(tags[0].0, COMMA_EQ_SPACE) + "=" + Escape(UntilBreak(tags[0].1), COMMA_EQ_SPACE)
    else "," + TagText(tags[0]) + TagsUntilBreak(tags[1..])
  }

  function FieldsUntilBreak(fields: seq<(string, Value)>): (r: string)
    ensures fields != [] ==> r != ""
  {
    if fields == [] then ""
    else if !NoTabOrNewline(fields[0].0) then "," + Escape(UntilBreak(fields[0].0), COMMA_EQ_SPACE)
    else "," + FieldText(fields[0]) + FieldsUntilBreak(fields[1..])
  }

  predicate TagsReadable(tags: seq<(string, string)>) {
    forall k :: 0 <= k < |tags| ==> Readable(tags[k].0) && Readable(tags[k].1)
  }

  predicate FieldsReadable(fields: seq<(string, Value)>) {
    forall k :: 0 <= k < |fields| ==> Readable(fields[k].0)
  }

  lemma ReadableIsOk(s: string)
    requires Readable(s)
    ensures NameOk(s) <==> NoTabOrNewline(s)
  {
  }

  /** What can follow the cut: the end of the piece, or the tab. */
  predicate AtBreak(t: string) {
    t == "" || t[0] == '\t'
  }

  lemma BrokenName(role: Role, s: string, t: string)
    requires Readable(s) && !NoTabOrNewline(s) && AtBreak(t)
    ensures Name(role, Escape(UntilBreak(s), SpecialIn(role)) + t) == Failure(EndsWithBackslash)
  {
    var a := UntilBreak(s);
    assert IsBreak(s[|a|]);
    NameInverts(role, a, t);
  }

  lemma {:induction false} TagsBreak(tags: seq<(string, string)>, t: string, res: seq<(EscapedStr, EscapedStr)>)
    requires TagsReadable(tags) && !TagsOk(tags) && AtBreak(t)
    ensures ListTail(OneTag, TagsUntilBreak(tags) + t, res) == Failure(EndsWithBackslash)
  {
    hide Escape, Readable, NameOk, Name, NoTabOrNewline;
    var i := TagsUntilBreak(tags) + t;
    var (key, value) := tags[0];
    ReadableIsOk(key);
    ReadableIsOk(value);
    if !NoTabOrNewline(key) {
      BrokenName(Key, key, t);
      assert i[1..] == Escape(UntilBreak(key), COMMA_EQ_SPACE) + t;
    } else if !NoTabOrNewline(value) {
      var more := Escape(UntilBreak(value), COMMA_EQ_SPACE) + t;
      assert i[1..] == Escape(key, COMMA_EQ_SPACE) + ("=" + more);
      NameReadBack(Key, key, "=" + more);
      assert ("=" + more)[1..] == more;
      BrokenName(TagValue, value, t);
    } else {
      hide OneTag, TagText;
      var more := TagsUntilBreak(tags[1..]) + t;
      assert i[1..] == TagText(tags[0]) + more;
      assert EndsName(TagValue, more);
      TagInverts(tags[0], more);
      TagsBreak(tags[1..], t, res + [OneTag(i[1..]).value]);
    }
  }

  lemma BrokenField(key: string, t: string)
    requires Readable(key) && !NoTabOrNewline(key) && AtBreak(t)
    ensures OneField(Escape(UntilBreak(key), COMMA_EQ_SPACE) + t) == Failure(EndsWithBackslash)
  {
    hide Name, Escape, Readable, NoTabOrNewline, UntilBreak;
    BrokenName(Key, key, t);
  }

  lemma {:induction false} FieldsBreak(fields: seq<(string, Value)>, t: string, res: seq<(EscapedStr, FieldValue)>)
    requires FieldsReadable(fields) && !FieldsOk(fields) && AtBreak(t)
    ensures ListTail(OneField, FieldsUntilBreak(fields) + t, res) == Failure(EndsWithBackslash)
    decreases |fields|
  {
    hide Escape, Readable, NameOk, NoTabOrNewline, OneField, FieldText, UntilBreak, IsDecimalText, IntegralLength;
    hide DigitRun;
    var i := FieldsUntilBreak(fields) + t;
    var key := fields[0].0;
    ReadableIsOk(key);
    if !NoTabOrNewline(key) {
      BrokenField(key, t);
      assert i[1..] == Escape(UntilBreak(key), COMMA_EQ_SPACE) + t;
    } else {
      var more := FieldsUntilBreak(fields[1..]) + t;
      assert i[1..] == FieldText(fields[0]) + more;
      assert fields[1..] != [] && EndsValue(more);
      FieldInverts(fields[0], more);
      FieldsBreak(fields[1..], t, res + [OneField(i[1..]).value]);
    }
  }

  /** `p` is all of `text` before one of its tabs or newlines. */
  predicate BreaksAt(text: string, p: string) {
    |p| < |text| && text[..|p|] == p && IsBreak(text[|p|])
  }

  lemma BreaksLater(before: string, text: string, p: string, after: string)
    requires BreaksAt(text, p)
    ensures BreaksAt(before + text + after, before + p)
  {
    var whole := before + text + after;
    assert whole == before + p + (text[|p|..] + after);
  }

  lemma {:induction false} NameBreaks(s: string, special: set<char>)
    requires !NoTabOrNewline(s) && '\t' !in special && '\n' !in special
    ensures BreaksAt(Escape(s, special), Escape(UntilBreak(s), special))
  {
    if !IsBreak(s[0]) {
      NameBreaks(s[1..], special);
      var head, tail := EscapeChar(s[0], special), Escape(s[1..], special);
      BreaksLater(head, tail, Escape(UntilBreak(s[1..]), special), "");
      assert head + tail + "" == Escape(s, special);
      assert UntilBreak(s)[1..] == UntilBreak(s[1..]);
    }
  }

  lemma TagKeyBreaks(key: string, value: string)
    requires !NoTabOrNewline(key)
    ensures var text := "," + TagText((key, value));
            BreaksAt(text, "," + Escape(UntilBreak(key), COMMA_EQ_SPACE))
  {
    hide Escape, UntilBreak, NoTabOrNewline, BreaksAt;
    NameBreaks(key, COMMA_EQ_SPACE);
    var after := "=" + Escape(value, COMMA_EQ_SPACE);
    BreaksLater(",", Escape(key, COMMA_EQ_SPACE), Escape(UntilBreak(key), COMMA_EQ_SPACE), after);
    assert "," + TagText((key, value)) == "," + Escape(key, COMMA_EQ_SPACE) + after;
  }

  lemma TagValueBreaks(key: string, value: string)
    requires !NoTabOrNewline(value)
    ensures var text := "," + TagText((key, value));
            BreaksAt(text, "," + Escape(key, COMMA_EQ_SPACE) + "=" + Escape(UntilBreak(value), COMMA_EQ_SPACE))
  {
    hide Escape, UntilBreak, NoTabOrNewline, BreaksAt;
    NameBreaks(value, COMMA_EQ_SPACE);
    var before := "," + Escape(key, COMMA_EQ_SPACE) + "=";
    BreaksLater(before, Escape(value, COMMA_EQ_SPACE), Escape(UntilBreak(value), COMMA_EQ_SPACE), "");
    assert "," + TagText((key, value)) == before + Escape(value, COMMA_EQ_SPACE) + "";
  }

  lemma {:induction false} TagsTextBreaks(tags: seq<(string, string)>)
    requires TagsReadable(tags) && !TagsOk(tags)
    ensures BreaksAt(TagsText(tags), TagsUntilBreak(tags))
    ensures Feed(START, TagsUntilBreak(tags)) == Some(START)
  {
    hide Escape, UntilBreak, Readable, NameOk, BreaksAt, Feed, TagText;
    var (key, value) := tags[0];
    ReadableIsOk(key);
    ReadableIsOk(value);
    var more := TagsText(tags[1..]);
    var tag := "," + TagText(tags[0]);
    assert TagsText(tags) == "" + tag + more;
    if !NoTabOrNewline(key) {
      TagKeyBreaks(key, value);
      BreaksLater("", tag, TagsUntilBreak(tags), more);
      assert "" + TagsUntilBreak(tags) == TagsUntilBreak(tags);
      FeedTagKey(UntilBreak(key));
    } else if !NoTabOrNewline(value) {
      TagValueBreaks(key, value);
      BreaksLater("", tag, TagsUntilBreak(tags), more);
      assert "" + TagsUntilBreak(tags) == TagsUntilBreak(tags);
      FeedTag(key, UntilBreak(value));
    } else {
      TagsTextBreaks(tags[1..]);
      BreaksLater(tag, more, TagsUntilBreak(tags[1..]), "");
      assert tag + more + "" == TagsText(tags);
      FeedTag(key, value);
      TagTextIs(key, value);
      FeedAppend(START, tag, TagsUntilBreak(tags[1..]));
    }
  }

  lemma TagTextIs(key: string, value: string)
    ensures "," + TagText((key, value)) == "," + Escape(key, COMMA_EQ_SPACE) + "=" + Escape(value, COMMA_EQ_SPACE)
  {
  }

  lemma FieldKeyBreaks(f: (string, Value), more: string)
    requires !NoTabOrNewline(f.0)
    ensures BreaksAt(FieldText(f) + more, Escape(UntilBreak(f.0), COMMA_EQ_SPACE))
  {
    hide Escape, UntilBreak, NoTabOrNewline, ValueText, BreaksAt;
    var key := Escape(f.0, COMMA_EQ_SPACE);
    NameBreaks(f.0, COMMA_EQ_SPACE);
    var after := "=" + ValueText(f.1) + more;
    BreaksLater("", key, Escape(UntilBreak(f.0), COMMA_EQ_SPACE), after);
    assert FieldText(f) + more == "" + key + after;
    assert "" + Escape(UntilBreak(f.0), COMMA_EQ_SPACE) == Escape(UntilBreak(f.0), COMMA_EQ_SPACE);
  }

  predicate Unquoted(st: Option<SplitState>) {
    st.Some? && !st.value.quoted && !st.value.inEscape
  }

  /** The fields without the comma in front of the first one. */
  lemma {:induction false} FieldsTextBreaks(n: nat, fields: seq<(string, Value)>)
    requires FieldsReadable(fields) && !FieldsOk(fields)
    ensures BreaksAt(FieldText(fields[0]) + FieldsText(fields[1..]), FieldsUntilBreak(fields)[1..])
    ensures Unquoted(Feed(FieldState(n, n), FieldsUntilBreak(fields)[1..]))
    decreases |fields|
  {
    hide Escape, UntilBreak, Readable, NameOk, BreaksAt, Feed, FieldText, IsDecimalText, IntegralLength, DigitRun;
    var key := fields[0].0;
    ReadableIsOk(key);
    var field, more := FieldText(fields[0]), FieldsText(fields[1..]);
    var p := FieldsUntilBreak(fields)[1..];
    if !NoTabOrNewline(key) {
      FieldKeyBreaks(fields[0], more);
      assert p == Escape(UntilBreak(key), COMMA_EQ_SPACE);
      FeedKey(n, UntilBreak(key));
    } else {
      var fields', p' := fields[1..], FieldsUntilBreak(fields[1..])[1..];
      FieldsTextBreaks(n + 1, fields');
      BreaksLater(field + ",", FieldText(fields'[0]) + FieldsText(fields'[1..]), p', "");
      assert field + "," + (FieldText(fields'[0]) + FieldsText(fields'[1..])) + "" == field + more;
      assert FieldsUntilBreak(fields') == "," + p';
      assert p == field + ("," + p');
      assert p == field + "," + p';
      FeedField(n, fields[0]);
      FeedAppend(FieldState(n, n), field, "," + p');
      FeedComma(n, p');
    }
  }

  /** The names of `l` are such as the parser can produce. */
  predicate LineReadable(l: Line) {
    && Readable(l.measurement) && l.measurement[0] != '#'
    && TagsReadable(l.tags) && FieldsReadable(l.fields)
  }

  function LineUntilBreak(l: Line): string
    requires l.fields != []
  {
    if !NoTabOrNewline(l.measurement) then Escape(UntilBreak(l.measurement), COMMA_SPACE)
    else if !TagsOk(l.tags) then Escape(l.measurement, COMMA_SPACE) + TagsUntilBreak(l.tags)
    else Escape(l.measurement, COMMA_SPACE) + TagsText(l.tags) + " " + FieldsUntilBreak(l.fields)[1..]
  }

  lemma TagsFitIfOk(tags: seq<(string, string)>)
    requires TagsOk(tags)
    ensures TagsFit(tags)
  {
  }

  /** The splitter arrives at the first tab or newline of a name outside quotes and escapes. */
  lemma LineTextBreaks(l: Line)
    requires l.fields != [] && LineReadable(l) && !WellFormed(l)
    ensures BreaksAt(LineText(l), LineUntilBreak(l))
    ensures Unquoted(Feed(START, LineUntilBreak(l)))
  {
    hide Escape, UntilBreak, Readable, NameOk, TagsOk, FieldsOk, TagsReadable, FieldsReadable, BreaksAt, Feed;
    hide FieldText, FieldsText, TagsText, TimestampText, TagsUntilBreak, FieldsUntilBreak;
    ReadableIsOk(l.measurement);
    var m, ts := Escape(l.measurement, COMMA_SPACE), TimestampText(l.timestamp);
    var fields := FieldText(l.fields[0]) + FieldsText(l.fields[1..]);
    if !NoTabOrNewline(l.measurement) {
      NameBreaks(l.measurement, COMMA_SPACE);
      var after := TagsText(l.tags) + " " + fields + ts;
      BreaksLater("", m, LineUntilBreak(l), after);
      assert LineText(l) == "" + m + after;
      assert "" + LineUntilBreak(l) == LineUntilBreak(l);
      FeedMeasurement(UntilBreak(l.measurement));
    } else if !TagsOk(l.tags) {
      TagsTextBreaks(l.tags);
      var after := " " + fields + ts;
      BreaksLater(m, TagsText(l.tags), TagsUntilBreak(l.tags), after);
      assert LineText(l) == m + TagsText(l.tags) + after;
      FeedMeasurement(l.measurement);
      FeedAppend(START, m, TagsUntilBreak(l.tags));
    } else {
      FieldsTextBreaks(0, l.fields);
      var before := m + TagsText(l.tags) + " ";
      BreaksLater(before, fields, FieldsUntilBreak(l.fields)[1..], ts);
      assert LineText(l) == before + fields + ts;
      TagsFitIfOk(l.tags);
      FeedSeries(l.measurement, l.tags);
      FeedAppend(START, before, FieldsUntilBreak(l.fields)[1..]);
    }
  }

  /** So the first piece ends there, or goes on with the tab. */
  lemma FirstPieceBreaks(text: string, p: string, rest: string) returns (t: string)
    requires BreaksAt(text, p) && Unquoted(Feed(START, p))
    ensures SplitLines(text + rest)[0] == p + t && AtBreak(t)
  {
    hide Feed, Pieces;
    var after := text[|p|..] + rest;
    assert text + rest == p + after by {
      assert text == p + text[|p|..];
    }
    PiecesFeed(START, p, after);
    t := Pieces(Feed(START, p).value, after)[0];
    PieceAtBreak(Feed(START, p).value, after);
  }

  lemma PieceAtBreak(st: SplitState, i: string)
    requires !st.quoted && !st.inEscape && i != "" && IsBreak(i[0])
    ensures AtBreak(Pieces(st, i)[0])
  {
  }

  lemma TailToList<T(!new)>(f: string -> Parsed<T>, x: string, e: ParseError)
    requires NeverGrows(f) && ListTail(f, "," + x, []) == Failure(e)
    requires forall i :: f(i).Ok? ==> f(i).rest != i
    ensures SeparatedList(f, x) == Failure(e) && SeparatedList1(f, x) == Failure(e)
  {
    assert ("," + x)[1..] == x;
    assert f(x).Ok? ==> [] + [f(x).value] == [f(x).value];
    if f(x).Ok? && StartsWith(f(x).rest, ',') {
      var first, i := f(x).value, f(x).rest[1..];
      assert f(i).Ok? ==> [first] + [f(i).value] == [first, f(i).value];
    }
  }

  lemma SeriesBreaks(m: string, tags: seq<(string, string)>, t: string)
    requires NameOk(m) && TagsReadable(tags) && !TagsOk(tags) && AtBreak(t)
    ensures SeriesOf(Escape(m, COMMA_SPACE) + TagsUntilBreak(tags) + t) == Failure(EndsWithBackslash)
  {
    hide Escape, Name, OneTag, ListTail, Readable, SeparatedList, SeparatedList1, NoTabOrNewline, UntilBreak, TagText;
    var rest := TagsUntilBreak(tags) + t;
    assert Escape(m, COMMA_SPACE) + TagsUntilBreak(tags) + t == Escape(m, COMMA_SPACE) + rest;
    NameReadBack(Measurement, m, rest);
    TagsBreak(tags, t, []);
    assert rest == "," + rest[1..];
    TailToList(OneTag, rest[1..], EndsWithBackslash);
  }

  lemma UntilBreakFirst(s: string)
    requires Readable(s)
    ensures UntilBreak(s) != "" && UntilBreak(s)[0] == s[0] && !IsBreak(s[0])
  {
  }

  lemma FieldsFirst(fields: seq<(string, Value)>)
    requires fields != [] && FieldsReadable(fields)
    ensures |FieldsUntilBreak(fields)| > 1 && FieldsUntilBreak(fields)[0] == ',' && FieldsUntilBreak(fields)[1] != ' '
  {
    var key := fields[0].0;
    UntilBreakFirst(key);
    EscapeFirst(key, COMMA_EQ_SPACE);
    EscapeFirst(UntilBreak(key), COMMA_EQ_SPACE);
  }

  lemma LineFieldsBreak(l: Line, t: string)
    requires l.fields != [] && LineReadable(l) && NameOk(l.measurement) && TagsOk(l.tags) && !FieldsOk(l.fields)
             && AtBreak(t)
    ensures ParseLine(LineUntilBreak(l) + t) == Failure(EndsWithBackslash)
  {
    hide Escape, Readable, OneField, ListTail, SeriesOf, SeparatedList, SeparatedList1, FieldsUntilBreak, TagsText;
    hide TagsReadable, FieldsReadable, TagsOk, FieldsOk, UntilBreak;
    FieldsFirst(l.fields);
    var x := FieldsUntilBreak(l.fields)[1..] + t;
    FieldsBreak(l.fields, t, []);
    assert FieldsUntilBreak(l.fields) + t == "," + x;
    TailToList(OneField, x, EndsWithBackslash);
    SeriesInverts(l.measurement, l.tags, " " + x);
    assert LineUntilBreak(l) + t == Escape(l.measurement, COMMA_SPACE) + TagsText(l.tags) + (" " + x);
    assert (" " + x)[1..] == x;
    assert SpaceRun(" " + x) == 1;
  }

  lemma BrokenLineFails(l: Line, t: string)
    requires l.fields != [] && LineReadable(l) && !WellFormed(l) && AtBreak(t)
    ensures ParseLine(LineUntilBreak(l) + t) == Failure(EndsWithBackslash)
  {
    hide Escape, Readable, NameOk, NoTabOrNewline, Name, TagsReadable, FieldsReadable, TagsOk, FieldsOk, TagsUntilBreak;
    hide FieldsUntilBreak, TagsText;
    ReadableIsOk(l.measurement);
    if !NoTabOrNewline(l.measurement) {
      BrokenName(Measurement, l.measurement, t);
    } else if !TagsOk(l.tags) {
      SeriesBreaks(l.measurement, l.tags, t);
    } else {
      LineFieldsBreak(l, t);
    }
  }

  lemma LineStart(l: Line, t: string)
    requires l.fields != [] && LineReadable(l)
    ensures LineUntilBreak(l) != "" && TrimLeading(LineUntilBreak(l) + t) == LineUntilBreak(l) + t
  {
    hide TagsUntilBreak, FieldsUntilBreak, TagsText, TagsReadable, FieldsReadable, TagsOk;
    var m := l.measurement;
    UntilBreakFirst(m);
    EscapeFirst(m, COMMA_SPACE);
    EscapeFirst(UntilBreak(m), COMMA_SPACE);
    var i := LineUntilBreak(l) + t;
    assert BoundaryRun(i) == 0;
    assert i[0..] == i;
  }

  /** A line with a tab or newline in a name is reported as an error. */
  lemma BrokenLineIsBad(l: Line, rest: string)
    requires l.fields != [] && LineReadable(l) && !WellFormed(l)
    ensures var results := ParseLines(LineText(l) + "\n" + rest);
            results != [] && results[0].Bad?
  {
    hide ParseLine, LineText, LineUntilBreak, TrimLeading, LineReadable, WellFormed, Feed, Pieces;
    var p := LineUntilBreak(l);
    LineTextBreaks(l);
    assert LineText(l) + "\n" + rest == LineText(l) + ("\n" + rest);
    var t := FirstPieceBreaks(LineText(l), p, "\n" + rest);
    LineStart(l, t);
    BrokenLineFails(l, t);
  }

  // ---------------------------------------------------------------------------------------------
  // The theorem
  // ---------------------------------------------------------------------------------------------

  lemma WellFormedFits(l: Line)
    requires WellFormed(l)
    ensures LineFits(l)
  {
  }

  /** A well-formed line is read back, and what follows it is read as if it stood alone. */
  lemma LineComesBack(l: Line, rest: string)
    requires l.fields != [] && WellFormed(l)
    ensures var results := ParseLines(LineText(l) + "\n" + rest);
            && results != [] && results[0].Good? && Means(results[0].line, l)
            && results[1..] == ParseLines(rest)
  {
    WellFormedFits(l);
    hide LineText, ParseLine, WellFormed, LineFits, TrimLeading, Means, Pieces;
    BuiltLineIsOnePiece(l, rest);
    NothingToTrim(l);
    LineInverts(l);
    NotEmpty(l);
    assert ([LineText(l)] + SplitLines(rest))[1..] == SplitLines(rest);
  }

  lemma NotEmpty(l: Line)
    requires l.fields != []
    ensures LineText(l) != ""
  {
  }

  /** Behind a well-formed line a batch comes back exactly if it does on its own. */
  lemma RoundTripsBehind(lines: seq<Line>)
    requires Built(lines) && lines != [] && WellFormed(lines[0])
    ensures RoundTrips(lines) <==> RoundTrips(lines[1..])
  {
    hide LineText, ParseLines, WellFormed, Means;
    LineComesBack(lines[0], BatchText(lines[1..]));
    var results := ParseLines(BatchText(lines));
    assert forall k :: 0 <= k < |results| - 1 ==> results[1..][k] == results[k + 1];
    assert forall k :: 0 <= k < |lines| - 1 ==> lines[1..][k] == lines[k + 1];
  }

  lemma {:induction false} WellFormedComesBack(lines: seq<Line>)
    requires Built(lines) && forall l <- lines :: WellFormed(l)
    ensures RoundTrips(lines)
  {
    if lines == [] {
      EmptyPiece();
      assert ParseLines("") == [];
    } else {
      hide RoundTrips, WellFormed;
      WellFormedComesBack(lines[1..]);
      RoundTripsBehind(lines);
    }
  }

  lemma MeansReadable(p: ParsedLine, l: Line)
    requires ReadableLine(p) && Means(p, l)
    ensures LineReadable(l)
  {
    hide Readable;
    forall k | 0 <= k < |l.tags|
      ensures Readable(l.tags[k].0) && Readable(l.tags[k].1)
    {
      assert TagsMeaning(p.series.tagSet.value)[k] == l.tags[k];
    }
  }

  lemma {:induction false} ComesBackWellFormed(lines: seq<Line>)
    requires Built(lines) && RoundTrips(lines)
    ensures forall l <- lines :: WellFormed(l)
  {
    if lines != [] {
      hide LineText, ParsePieces, WellFormed, Means, Pieces, SplitLines, ReadableLine, LineReadable;
      var l, rest := lines[0], BatchText(lines[1..]);
      AcceptedLinesAreReadable(BatchText(lines), 0);
      MeansReadable(ParseLines(BatchText(lines))[0].line, l);
      if !WellFormed(l) {
        BrokenLineIsBad(l, rest);
        assert false;
      }
      RoundTripsBehind(lines);
      ComesBackWellFormed(lines[1..]);
    }
  }

  /** Parsing a built batch gives the same lines, names, values and timestamps in order if and only if every
      name is non-empty, holds no tab or newline and does not end in a backslash, and no measurement starts
      with `#`. String values are not restricted. */
  lemma RoundTripsIff(lines: seq<Line>)
    requires Built(lines)
    ensures RoundTrips(lines) <==> forall l <- lines :: WellFormed(l)
  {
    hide RoundTrips, WellFormed;
    if RoundTrips(lines) {
      ComesBackWellFormed(lines);
    }
    if forall l <- lines :: WellFormed(l) {
      WellFormedComesBack(lines);
    }
  }

  /** A tab in a tag key: the line is not read back. */
  lemma TabIsNotReadBack()
    ensures !RoundTrips([Line("m", [("a\tb", "v")], [("f", Bool(true))], None)])
  {
    var l := Line("m", [("a\tb", "v")], [("f", Bool(true))], None);
    assert l.tags[0].0[1] == '\t';
    assert !NameOk(l.tags[0].0);
    hide RoundTrips, NameOk;
    RoundTripsIff([l]);
    assert l in [l];
  }
}
