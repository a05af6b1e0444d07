/** Parsing what the builder wrote gives back what was built, exactly for the well-formed batches. */
module RoundTrip {
  import opened Basics
  import opened LineProtocol

  // ---------------------------------------------------------------------------------------------
  // Statement
  // ---------------------------------------------------------------------------------------------

  function TagsMeaning(tags: seq<(EscapedStr, EscapedStr)>): seq<(string, string)> {
    seq(|tags|, k requires 0 <= k < |tags| => (tags[k].0.text, tags[k].1.text))
  }

  /** The value a parsed field stands for; a float whose text is not plain decimal has no counterpart here. */
  function ValueMeaning(v: FieldValue): Option<Value> {
    match v
    case I64V(i) => Some(Int(i))
    case U64V(u) => Some(UInt(u))
    case F64V(text) => if IsDecimalText(text) then Some(Float(text)) else None
    case StringV(s) => Some(Str(s.text))
    case BooleanV(b) => Some(Bool(b))
  }

  predicate FieldsMean(parsed: seq<(EscapedStr, FieldValue)>, fields: seq<(string, Value)>) {
    && |parsed| == |fields|
    && forall k :: 0 <= k < |fields| ==>
         parsed[k].0.text == fields[k].0 && ValueMeaning(parsed[k].1) == Some(fields[k].1)
  }

  predicate TagSetMeans(tagSet: Option<seq<(EscapedStr, EscapedStr)>>, tags: seq<(string, string)>) {
    if tags == [] then tagSet.None? else tagSet.Some? && TagsMeaning(tagSet.value) == tags
  }

  /** `p` has the same names, values and timestamp as `l`, and a tag set exactly if `l` has tags. */
  predicate Means(p: ParsedLine, l: Line) {
    && p.series.measurement.text == l.measurement
    && TagSetMeans(p.series.tagSet, l.tags)
    && FieldsMean(p.fieldSet, l.fields)
    && p.timestamp == l.timestamp
  }

  /** The results are the lines, one for one and in order. */
  predicate ReadAs(results: seq<LineResult>, lines: seq<Line>) {
    && |results| == |lines|
    && forall k :: 0 <= k < |lines| ==> results[k].Good? && Means(results[k].line, lines[k])
  }

  predicate RoundTrips(lines: seq<Line>)
    requires Built(lines)
  {
    ReadAs(ParseLines(BatchText(lines)), lines)
  }

  predicate NoTabOrNewline(s: string) {
    '\t' !in s && '\n' !in s
  }

  predicate NameOk(s: string) {
    s != "" && NoTabOrNewline(s) && !EndsIn(s, '\\')
  }

  predicate TagsOk(tags: seq<(string, string)>) {
    forall k :: 0 <= k < |tags| ==> NameOk(tags[k].0) && NameOk(tags[k].1)
  }

  predicate FieldsOk(fields: seq<(string, Value)>) {
    forall k :: 0 <= k < |fields| ==> NameOk(fields[k].0)
  }

  predicate WellFormed(l: Line) {
    NameOk(l.measurement) && l.measurement[0] != '#' && TagsOk(l.tags) && FieldsOk(l.fields)
  }

  // ---------------------------------------------------------------------------------------------
  // Names
  // ---------------------------------------------------------------------------------------------

  function SpecialIn(role: Role): set<char> {
    if role.Measurement? then COMMA_SPACE else COMMA_EQ_SPACE
  }

  /** One character or one escape at the front of `i`: how long it is and the text it stands for. */
  function Unit(role: Role, i: string): (u: (nat, string))
    ensures u.0 <= |i|
  {
    if i == "" then (0, "")
    else if Normal(role, i[0]) then (1, [i[0]])
    else if i[0] != '\\' then (0, "")
    else if |i| == 1 then (1, "\\")
    else (2, if Escapable(role, i[1]) then [i[1]] else ['\\', i[1]])
  }

  /** The text `Scan` reads, unit by unit, and what it leaves. */
  function Unescape(role: Role, i: string): string
    decreases |i|
  {
    var (n, text) := Unit(role, i);
    if n == 0 then "" else text + Unescape(role, i[n..])
  }

  function Leftover(role: Role, i: string): string
    decreases |i|
  {
    var (n, _) := Unit(role, i);
    if n == 0 then i else Leftover(role, i[n..])
  }

  lemma UnescapeOne(role: Role, i: string)
    requires i != "" && Normal(role, i[0])
    ensures Unescape(role, i) == [i[0]] + Unescape(role, i[1..]) && Leftover(role, i) == Leftover(role, i[1..])
  {
    assert Unit(role, i) == (1, [i[0]]);
  }

  /** One character in front of a run makes a longer run. */
  lemma OneInFront(i: string, n: nat, u: string)
    requires 0 < n <= |i|
    ensures [i[0]] + (i[1..][..n - 1] + u) == i[..n] + u && i[1..][n - 1..] == i[n..]
  {
    assert [i[0]] + i[1..][..n - 1] == i[..n];
  }

  lemma {:induction false} UnescapeRun(role: Role, i: string, n: nat)
    requires n <= NormalRun(role, i)
    ensures Unescape(role, i) == i[..n] + Unescape(role, i[n..]) && Leftover(role, i) == Leftover(role, i[n..])
  {
    hide Unescape, Leftover, Normal;
    if n == 0 {
      assert i[n..] == i && i[..n] == "";
    } else {
      UnescapeOne(role, i);
      UnescapeRun(role, i[1..], n - 1);
      OneInFront(i, n, Unescape(role, i[n..]));
    }
  }

  lemma {:induction false} ConcatAppend(a: seq<string>, b: seq<string>)
    ensures Concat(a + b) == Concat(a) + Concat(b)
  {
    if a == [] {
      assert a + b == b;
    } else {
      assert (a + b)[1..] == a[1..] + b;
      ConcatAppend(a[1..], b);
    }
  }

  /** A round that starts with a backslash reads one unit. */
  lemma EscapeIsUnit(role: Role, i: string)
    requires NormalRun(role, i) == 0 && StartsWith(i, '\\')
    ensures Unit(role, i) == (ScanRound(role, i).0, Concat(ScanRound(role, i).1)) && ScanRound(role, i).0 > 0
  {
    var (n, slices) := ScanRound(role, i);
    if |slices| == 1 {
      assert Concat(slices) == slices[0] + "" == slices[0];
    } else {
      assert slices[1..] == [[i[1]]];
      assert Concat([[i[1]]]) == [i[1]] + "" == [i[1]];
      assert "\\" + [i[1]] == ['\\', i[1]];
    }
  }

  /** A round of the loop reads a run of units. */
  lemma RoundIsUnescape(role: Role, i: string)
    ensures var (n, slices) := ScanRound(role, i);
            && Unescape(role, i) == Concat(slices) + (if n == 0 then "" else Unescape(role, i[n..]))
            && Leftover(role, i) == (if n == 0 then i else Leftover(role, i[n..]))
  {
    var (n, slices) := ScanRound(role, i);
    if NormalRun(role, i) > 0 {
      hide Unescape, Leftover;
      UnescapeRun(role, i, n);
      assert Concat(slices) == i[..n] + "";
    } else if n > 0 {
      EscapeIsUnit(role, i);
    }
  }

  lemma {:induction false} ScanIsUnescape(role: Role, i: string)
    ensures Concat(Scan(role, i).0) == Unescape(role, i) && Scan(role, i).1 == Leftover(role, i)
    decreases |i|
  {
    var (n, slices) := ScanRound(role, i);
    RoundIsUnescape(role, i);
    if n > 0 {
      ScanIsUnescape(role, i[n..]);
      ConcatAppend(slices, Scan(role, i[n..]).0);
    }
  }

  lemma FromSlicesText(slices: seq<string>)
    ensures FromSlices(slices).text == Concat(slices)
  {
    if |slices| == 1 {
      assert Concat(slices) == slices[0] + Concat(slices[1..]);
    }
  }

  /** `t` ends a name of this role: it is empty or starts with a character that cannot belong to it. */
  predicate EndsName(role: Role, t: string) {
    t == "" || (!Normal(role, t[0]) && t[0] != '\\')
  }

  lemma UnitOfEscaped(role: Role, c: char, t: string)
    requires c != '\t' && c != '\n'
    ensures Unit(role, EscapeChar(c, SpecialIn(role)) + t) == (|EscapeChar(c, SpecialIn(role))|, [c])
  {
  }

  lemma {:induction false} UnescapeInverts(role: Role, s: string, t: string)
    requires NoTabOrNewline(s) && EndsName(role, t)
    ensures var i := Escape(s, SpecialIn(role)) + t;
            Unescape(role, i) == s && Leftover(role, i) == t
  {
    var i := Escape(s, SpecialIn(role)) + t;
    if s == "" {
      assert i == t;
    } else {
      assert s[0] in s;
      var head, tail := EscapeChar(s[0], SpecialIn(role)), Escape(s[1..], SpecialIn(role)) + t;
      assert i == head + tail && i[|head|..] == tail;
      UnitOfEscaped(role, s[0], tail);
      UnescapeInverts(role, s[1..], t);
      assert [s[0]] + s[1..] == s;
    }
  }

  /** A name is read back, unless it ends in a backslash: then the parser fails for good. */
  lemma NameInverts(role: Role, s: string, t: string)
    requires s != "" && NoTabOrNewline(s) && EndsName(role, t)
    ensures var r := Name(role, Escape(s, SpecialIn(role)) + t);
            if EndsIn(s, '\\') then r == Failure(EndsWithBackslash) else r.Ok? && r.rest == t && r.value.text == s
  {
    var i := Escape(s, SpecialIn(role)) + t;
    ScanIsUnescape(role, i);
    UnescapeInverts(role, s, t);
    FromSlicesText(Scan(role, i).0);
  }

  lemma NameReadBack(role: Role, s: string, t: string)
    requires NameOk(s) && EndsName(role, t)
    ensures var r := Name(role, Escape(s, SpecialIn(role)) + t);
            r.Ok? && r.rest == t && r.value.text == s
  {
    NameInverts(role, s, t);
  }

  // ---------------------------------------------------------------------------------------------
  // Numbers
  // ---------------------------------------------------------------------------------------------

  lemma {:induction false} DecimalDigits(n: nat)
    ensures Decimal(n) != "" && (forall c <- Decimal(n) :: IsDigit(c)) && DigitsValue(Decimal(n)) == n
  {
    if n < 10 {
      assert Decimal(n)[..|Decimal(n)| - 1] == "";
    } else {
      DecimalDigits(n / 10);
      assert Decimal(n)[..|Decimal(n)| - 1] == Decimal(n / 10);
    }
  }

  lemma {:induction false} DigitRunOf(s: string, t: string)
    requires (forall c <- s :: IsDigit(c)) && (t == "" || !IsDigit(t[0]))
    ensures DigitRun(s + t) == |s|
  {
    if s == "" {
      assert s + t == t;
    } else {
      assert (s + t)[1..] == s[1..] + t;
      DigitRunOf(s[1..], t);
    }
  }

  lemma SignedDecimalIntegral(v: int, t: string)
    requires t == "" || !IsDigit(t[0])
    ensures var s := SignedDecimal(v);
            s != "" && IntegralLength(s + t) == |s| == IntegralLength(s) && IntegralValue(s) == v
  {
    var s := SignedDecimal(v);
    if v < 0 {
      DecimalDigits(-v);
      assert s[1..] == Decimal(-v);
      assert (s + t)[1..] == Decimal(-v) + t;
      DigitRunOf(Decimal(-v), t);
      DigitRunOf(Decimal(-v), "");
      assert Decimal(-v) + "" == Decimal(-v);
    } else {
      DecimalDigits(v);
      DigitRunOf(s, t);
      DigitRunOf(s, "");
      assert s + "" == s;
      assert s[0] in s;
    }
  }

  // ---------------------------------------------------------------------------------------------
  // Field values
  // ---------------------------------------------------------------------------------------------

  /** What follows a field value in a built line. */
  predicate EndsValue(t: string) {
    t == "" || t[0] == ',' || t[0] == ' '
  }

  lemma RestOf(s: string, t: string, n: nat)
    requires n <= |s|
    ensures (s + t)[n..] == s[n..] + t
  {
    assert (s + t)[n..] == s[n..] + t;
  }

  /** The parts of a text with a one-letter suffix and what follows it. */
  lemma SuffixedText(s: string, suffix: char, t: string)
    ensures var i := s + [suffix] + t;
            i == s + ([suffix] + t) && i[..|s|] == s && i[|s|..] == [suffix] + t && i[|s| + 1..] == t
  {
    var i := s + [suffix] + t;
    assert i == s + ([suffix] + t);
    RestOf(s, [suffix] + t, |s|);
    assert i[..|s|] == s && i[|s| + 1..] == t;
  }

  lemma IntInverts(v: I64, t: string)
    requires EndsValue(t)
    ensures FieldValueOf(ValueText(Int(v)) + t) == Ok(t, I64V(v))
  {
    var s := SignedDecimal(v);
    SuffixedText(s, 'i', t);
    SignedDecimalIntegral(v, "i" + t);
    hide SignedDecimal, IntegralLength, IntegralValue, FloatValue, StringValue, BoolValue;
  }

  lemma UIntInverts(v: U64, t: string)
    requires EndsValue(t)
    ensures FieldValueOf(ValueText(UInt(v)) + t) == Ok(t, U64V(v))
  {
    var s := Decimal(v);
    SuffixedText(s, 'u', t);
    SignedDecimalIntegral(v, "u" + t);
    DecimalDigits(v);
    DigitRunOf(s, "u" + t);
    assert v >= 0 && SignedDecimal(v) == s;
    hide SignedDecimal, Decimal, IntegralLength, IntegralValue, DigitRun, DigitsValue;
    hide FloatValue, StringValue, BoolValue;
  }

  lemma FloatLengthOf(s: DecimalText, t: string)
    requires EndsValue(t)
    ensures FloatLength(s + t) == |s|
  {
    hide ExponentialLength;
    var n := IntegralLength(s);
    IntegralLengthOf(s, t);
    NoExponent(s, t);
    RestOf(s, t, n);
    if n < |s| {
      var frac := s[n + 1..];
      RestOf(s, t, n + 1);
      DigitsOnly(frac);
      DigitRunOf(frac, t);
    } else {
      assert s[n..] + t == t;
    }
  }

  /** A decimal text is not taken for an integer, and is read whole. */
  lemma FloatInverts(s: DecimalText, t: string)
    requires EndsValue(t)
    ensures FieldValueOf(ValueText(Float(s)) + t) == Ok(t, F64V(s))
  {
    hide FloatLength, IntegerValue, UIntegerValue;
    IntegralOf(s, t);
    FloatLengthOf(s, t);
    RestOf(s, t, |s|);
    assert s[|s|..] + t == t && (s + t)[..|s|] == s;
  }

  lemma DigitsOnly(s: string)
    requires DigitRun(s) == |s|
    ensures forall c <- s :: IsDigit(c)
  {
  }

  /** The integral part of a decimal text stays the same whatever value end follows. */
  lemma IntegralLengthOf(s: DecimalText, t: string)
    requires EndsValue(t)
    ensures IntegralLength(s + t) == IntegralLength(s)
  {
    var n := IntegralLength(s);
    var i, u := s + t, s[n..] + t;
    assert u == "" || !IsDigit(u[0]);
    if s[0] == '-' {
      assert i[1..] == s[1..n] + u;
      DigitRunSplits(s[1..]);
      assert s[1..][..n - 1] == s[1..n];
      DigitRunOf(s[1..n], u);
    } else {
      assert i == s[..n] + u;
      DigitRunSplits(s);
      DigitRunOf(s[..n], u);
    }
  }

  lemma IntegralOf(s: DecimalText, t: string)
    requires EndsValue(t)
    ensures IntegralLength(s + t) == IntegralLength(s)
    ensures IntegerValue(s + t).Error? && UIntegerValue(s + t).Error?
  {
    IntegralLengthOf(s, t);
    BehindIntegral(s, t);
    hide IntegralValue, DigitsValue, IsDecimalText;
    var i, n := s + t, IntegralLength(s);
    assert n < |i| ==> i[n..][0] == i[n];
  }

  lemma DigitRunSplits(s: string)
    ensures forall c <- s[..DigitRun(s)] :: IsDigit(c)
    ensures DigitRun(s) < |s| ==> !IsDigit(s[DigitRun(s)])
  {
  }

  /** Digits not followed by an `e` are no exponential. */
  lemma NoE(i: string)
    requires DigitRun(i) == |i| || (i[DigitRun(i)] != 'e' && i[DigitRun(i)] != 'E')
    ensures ExponentialLength(i) == 0
  {
  }

  /** What comes behind the integral part of a decimal text. */
  lemma BehindIntegral(s: DecimalText, t: string)
    requires EndsValue(t)
    ensures var i, n := s + t, IntegralLength(s);
            n == |i| || i[n] == '.' || i[n] == ',' || i[n] == ' '
  {
  }

  lemma NoExponentAtStart(s: DecimalText, t: string)
    requires EndsValue(t)
    ensures StartsWith(s, '-') ==> ExponentialLength((s + t)[1..]) == 0
    ensures !StartsWith(s, '-') ==> ExponentialLength(s + t) == 0
  {
    hide IntegerValue, UIntegerValue, ExponentialLength, DigitRun;
    var i, n := s + t, IntegralLength(s);
    IntegralOf(s, t);
    BehindIntegral(s, t);
    assert i[0] == s[0];
    if s[0] == '-' {
      assert DigitRun(i[1..]) == n - 1 && (n < |i| ==> i[1..][n - 1] == i[n]);
      NoE(i[1..]);
    } else {
      assert DigitRun(i) == n;
      NoE(i);
    }
  }

  lemma NoExponent(s: DecimalText, t: string)
    requires EndsValue(t)
    ensures var n := IntegralLength(s);
            && (StartsWith(s, '-') ==> ExponentialLength((s + t)[1..]) == 0)
            && (!StartsWith(s, '-') ==> ExponentialLength(s + t) == 0)
            && (n < |s| ==> ExponentialLength(s[n + 1..] + t) == 0)
  {
    hide ExponentialLength;
    NoExponentAtStart(s, t);
    var n := IntegralLength(s);
    if n < |s| {
      var frac := s[n + 1..];
      DigitsOnly(frac);
      DigitRunOf(frac, t);
      assert t != "" ==> (frac + t)[|frac|] == t[0];
      NoE(frac + t);
    }
  }

  lemma BoolInverts(b: bool, t: string)
    requires EndsValue(t)
    ensures FieldValueOf(ValueText(Bool(b)) + t) == Ok(t, BooleanV(b))
  {
    var w := ValueText(Bool(b));
    var i := w + t;
    assert i[0] == w[0] && i[..|w|] == w && i[|w|..] == t;
    assert IntegralLength(i) == 0;
    assert ExponentialLength(i) == 0;
    if b {
      assert HasPrefix(i, TRUE_WORDS[0]);
    } else {
      assert FirstWord(TRUE_WORDS, i) == None by {
        assert TRUE_WORDS[1..] == ["True", "TRUE", "t", "T"];
        assert ["True", "TRUE", "t", "T"][1..] == ["TRUE", "t", "T"];
        assert ["TRUE", "t", "T"][1..] == ["t", "T"];
        assert ["t", "T"][1..] == ["T"];
        assert ["T"][1..] == [];
        assert forall p: string :: p != "" && p[0] != 'f' ==> !HasPrefix(i, p);
      }
      assert HasPrefix(i, FALSE_WORDS[0]);
    }
  }

  /** One character or one escape of a quoted string. */
  function QuotedUnit(i: string): (u: (nat, string))
    ensures u.0 <= |i|
  {
    if i == "" || i[0] == '"' then (0, "")
    else if i[0] == '\\' && |i| > 1 && (i[1] == '"' || i[1] == '\\') then (2, [i[1]])
    else (1, [i[0]])
  }

  function Unquote(i: string): string
    decreases |i|
  {
    var (n, text) := QuotedUnit(i);
    if n == 0 then "" else text + Unquote(i[n..])
  }

  function AfterQuoted(i: string): string
    decreases |i|
  {
    var (n, _) := QuotedUnit(i);
    if n == 0 then i else AfterQuoted(i[n..])
  }

  lemma {:induction false} UnquoteRun(i: string, n: nat)
    requires n <= PlainRun(i)
    ensures Unquote(i) == i[..n] + Unquote(i[n..]) && AfterQuoted(i) == AfterQuoted(i[n..])
  {
    if n == 0 {
      assert i[n..] == i && i[..n] == "";
    } else {
      assert QuotedUnit(i) == (1, [i[0]]);
      UnquoteRun(i[1..], n - 1);
      OneInFront(i, n, Unquote(i[n..]));
    }
  }

  lemma {:induction false} StringDataIsUnquote(i: string)
    ensures Concat(StringData(i).0) == Unquote(i) && StringData(i).1 == AfterQuoted(i)
    decreases |i|
  {
    var n := PlainRun(i);
    if n > 0 {
      StringDataIsUnquote(i[n..]);
      UnquoteRun(i, n);
    } else if QuotedUnit(i).0 > 0 {
      StringDataIsUnquote(i[QuotedUnit(i).0..]);
    }
  }

  lemma UnitOfQuoted(c: char, t: string)
    ensures QuotedUnit(EscapeChar(c, DOUBLE_QUOTE) + t) == (|EscapeChar(c, DOUBLE_QUOTE)|, [c])
  {
  }

  lemma {:induction false} UnquoteInverts(s: string, t: string)
    ensures var i := Escape(s, DOUBLE_QUOTE) + "\"" + t;
            Unquote(i) == s && AfterQuoted(i) == "\"" + t
  {
    var i := Escape(s, DOUBLE_QUOTE) + "\"" + t;
    if s == "" {
      assert i == "\"" + t;
    } else {
      UnquoteInverts(s[1..], t);
      var head, tail := EscapeChar(s[0], DOUBLE_QUOTE), Escape(s[1..], DOUBLE_QUOTE) + "\"" + t;
      assert i == head + tail && i[|head|..] == tail;
      UnitOfQuoted(s[0], tail);
      assert [s[0]] + s[1..] == s;
    }
  }

  lemma StrInverts(s: string, t: string)
    requires EndsValue(t)
    ensures var r := FieldValueOf(ValueText(Str(s)) + t);
            r.Ok? && r.rest == t && r.value.StringV? && r.value.s.text == s
  {
    var i := ValueText(Str(s)) + t;
    var j := Escape(s, DOUBLE_QUOTE) + "\"" + t;
    assert i == "\"" + j && i[1..] == j;
    assert IntegralLength(i) == 0 && ExponentialLength(i) == 0;
    StringDataIsUnquote(j);
    UnquoteInverts(s, t);
    FromSlicesText(StringData(j).0);
    assert ("\"" + t)[1..] == t;
  }

  lemma ValueInverts(v: Value, t: string)
    requires EndsValue(t)
    ensures var r := FieldValueOf(ValueText(v) + t);
            r.Ok? && r.rest == t && ValueMeaning(r.value) == Some(v)
  {
    match v
    case Int(i) => IntInverts(i, t);
    case UInt(u) => UIntInverts(u, t);
    case Float(text) => FloatInverts(text, t);
    case Str(s) => StrInverts(s, t);
    case Bool(b) => BoolInverts(b, t);
  }

  // ---------------------------------------------------------------------------------------------
  // Tags and fields
  // ---------------------------------------------------------------------------------------------

  lemma TagInverts(tag: (string, string), t: string)
    requires NameOk(tag.0) && NameOk(tag.1) && EndsName(TagValue, t)
    ensures var r := OneTag(TagText(tag) + t);
            r.Ok? && r.rest == t && r.value.0.text == tag.0 && r.value.1.text == tag.1
  {
    hide Name, Escape;
    var value := Escape(tag.1, COMMA_EQ_SPACE) + t;
    assert TagText(tag) + t == Escape(tag.0, COMMA_EQ_SPACE) + ("=" + value);
    NameInverts(Key, tag.0, "=" + value);
    assert ("=" + value)[1..] == value;
    NameInverts(TagValue, tag.1, t);
  }

  lemma FieldInverts(field: (string, Value), t: string)
    requires NameOk(field.0) && EndsValue(t)
    ensures var r := OneField(FieldText(field) + t);
            r.Ok? && r.rest == t && r.value.0.text == field.0 && ValueMeaning(r.value.1) == Some(field.1)
  {
    hide Name, Escape, ValueText, FieldValueOf;
    var value := ValueText(field.1) + t;
    assert FieldText(field) + t == Escape(field.0, COMMA_EQ_SPACE) + ("=" + value);
    NameInverts(Key, field.0, "=" + value);
    assert ("=" + value)[1..] == value;
    ValueInverts(field.1, t);
  }

  /** Taking a comma off the front of joined texts. */
  lemma CommaFirst(a: string, b: string, t: string)
    ensures StartsWith("," + a + b + t, ',') && ("," + a + b + t)[1..] == a + b + t == a + (b + t)
  {
    assert "," + a + b + t == "," + (a + (b + t));
    assert a + b + t == a + (b + t);
  }

  /** The list parser reads one more built tag. */
  lemma NextTag(tags: seq<(string, string)>, t: string, res: seq<(EscapedStr, EscapedStr)>)
    returns (o: (EscapedStr, EscapedStr))
    requires tags != [] && NameOk(tags[0].0) && NameOk(tags[0].1) && EndsName(TagValue, t)
    ensures ListTail(OneTag, TagsText(tags) + t, res) == ListTail(OneTag, TagsText(tags[1..]) + t, res + [o])
    ensures o.0.text == tags[0].0 && o.1.text == tags[0].1
  {
    hide OneTag, TagText, NameOk;
    var more := TagsText(tags[1..]) + t;
    var i := TagsText(tags) + t;
    CommaFirst(TagText(tags[0]), TagsText(tags[1..]), t);
    assert i[1..] == TagText(tags[0]) + more;
    TagInverts(tags[0], more);
    o := OneTag(i[1..]).value;
  }

  /** Reading built tags brings the list parser to what follows them. */
  lemma {:induction false} TagsInvert(tags: seq<(string, string)>, t: string, res: seq<(EscapedStr, EscapedStr)>)
    returns (res': seq<(EscapedStr, EscapedStr)>)
    requires TagsOk(tags) && EndsName(TagValue, t)
    ensures ListTail(OneTag, TagsText(tags) + t, res) == ListTail(OneTag, t, res')
    ensures TagsMeaning(res') == TagsMeaning(res) + tags
    decreases |tags|
  {
    hide OneTag, TagText, NameOk, ListTail, EndsName;
    if tags == [] {
      assert TagsText(tags) + t == t;
      res' := res;
    } else {
      var o := NextTag(tags, t, res);
      res' := TagsInvert(tags[1..], t, res + [o]);
      assert TagsMeaning(res + [o]) == TagsMeaning(res) + [tags[0]];
    }
  }

  lemma FieldsMeanAppend(parsed: seq<(EscapedStr, FieldValue)>, fields: seq<(string, Value)>,
                         o: (EscapedStr, FieldValue), f: (string, Value))
    requires FieldsMean(parsed, fields) && o.0.text == f.0 && ValueMeaning(o.1) == Some(f.1)
    ensures FieldsMean(parsed + [o], fields + [f])
  {
  }

  /** The list parser reads one more built field. */
  lemma NextField(fields: seq<(string, Value)>, t: string, res: seq<(EscapedStr, FieldValue)>)
    returns (o: (EscapedStr, FieldValue))
    requires fields != [] && NameOk(fields[0].0) && EndsValue(t)
    ensures ListTail(OneField, FieldsText(fields) + t, res)
            == ListTail(OneField, FieldsText(fields[1..]) + t, res + [o])
    ensures o.0.text == fields[0].0 && ValueMeaning(o.1) == Some(fields[0].1)
  {
    hide OneField, FieldText;
    var more := FieldsText(fields[1..]) + t;
    var i := FieldsText(fields) + t;
    CommaFirst(FieldText(fields[0]), FieldsText(fields[1..]), t);
    assert i[1..] == FieldText(fields[0]) + more;
    FieldInverts(fields[0], more);
    o := OneField(i[1..]).value;
  }

  lemma {:induction false} FieldsInvert(done: seq<(string, Value)>, fields: seq<(string, Value)>, t: string,
                                        res: seq<(EscapedStr, FieldValue)>)
    returns (res': seq<(EscapedStr, FieldValue)>)
    requires FieldsOk(fields) && EndsValue(t) && FieldsMean(res, done)
    ensures ListTail(OneField, FieldsText(fields) + t, res) == ListTail(OneField, t, res')
    ensures FieldsMean(res', done + fields)
    decreases |fields|
  {
    hide FieldsMean, ListTail, OneField, FieldText, IsDecimalText, IntegralLength, DigitRun;
    if fields == [] {
      assert FieldsText(fields) + t == t && done + fields == done;
      res' := res;
    } else {
      var o := NextField(fields, t, res);
      FieldsMeanAppend(res, done, o, fields[0]);
      res' := FieldsInvert(done + [fields[0]], fields[1..], t, res + [o]);
      assert done + [fields[0]] + fields[1..] == done + fields;
    }
  }

  /** A built tag set after the comma. */
  lemma TagSetInverts(tags: seq<(string, string)>, t: string)
    requires tags != [] && TagsOk(tags) && StartsWith(t, ' ')
    ensures var r := SeparatedList(OneTag, TagText(tags[0]) + TagsText(tags[1..]) + t);
            r.Ok? && r.rest == t && TagsMeaning(r.value) == tags
  {
    hide OneTag, TagText;
    var i := TagText(tags[0]) + TagsText(tags[1..]) + t;
    var more := TagsText(tags[1..]) + t;
    assert i == TagText(tags[0]) + more;
    TagInverts(tags[0], more);
    var o := OneTag(i).value;
    var res := TagsInvert(tags[1..], t, [o]);
    assert TagsMeaning([o]) == [tags[0]];
    assert [tags[0]] + tags[1..] == tags;
  }

  lemma SeriesWithTags(i: string)
    requires Name(Measurement, i).Ok? && StartsWith(Name(Measurement, i).rest, ',')
    requires SeparatedList(OneTag, Name(Measurement, i).rest[1..]).Ok?
    ensures var tags := SeparatedList(OneTag, Name(Measurement, i).rest[1..]);
            && SeriesOf(i).Ok? && SeriesOf(i).rest == tags.rest
            && SeriesOf(i).value.measurement == Name(Measurement, i).value
            && SeriesOf(i).value.tagSet == Some(tags.value)
  {
    hide Name, OneTag, SeparatedList;
  }

  lemma UntaggedSeriesInverts(m: string, t: string)
    requires NameOk(m) && StartsWith(t, ' ')
    ensures var r := SeriesOf(Escape(m, COMMA_SPACE) + t);
            r.Ok? && r.rest == t && r.value.measurement.text == m && r.value.tagSet.None?
  {
    hide Name, Escape, NameOk, OneTag, SeparatedList;
    NameReadBack(Measurement, m, t);
  }

  lemma AfterComma(tags: seq<(string, string)>, t: string)
    requires tags != []
    ensures StartsWith(TagsText(tags) + t, ',')
    ensures (TagsText(tags) + t)[1..] == TagText(tags[0]) + TagsText(tags[1..]) + t
  {
    hide TagText;
    CommaFirst(TagText(tags[0]), TagsText(tags[1..]), t);
  }

  lemma TaggedSeriesInverts(m: string, tags: seq<(string, string)>, t: string)
    requires NameOk(m) && tags != [] && TagsOk(tags) && StartsWith(t, ' ')
    ensures var r := SeriesOf(Escape(m, COMMA_SPACE) + (TagsText(tags) + t));
            r.Ok? && r.rest == t && r.value.measurement.text == m && TagSetMeans(r.value.tagSet, tags)
  {
    hide Name, Escape, TagsText, TagText, OneTag, SeparatedList, SeriesOf, TagsMeaning, NameOk, TagsOk;
    var rest := TagsText(tags) + t;
    AfterComma(tags, t);
    NameReadBack(Measurement, m, rest);
    TagSetInverts(tags, t);
    SeriesWithTags(Escape(m, COMMA_SPACE) + rest);
  }

  lemma SeriesInverts(m: string, tags: seq<(string, string)>, t: string)
    requires NameOk(m) && TagsOk(tags) && StartsWith(t, ' ')
    ensures var r := SeriesOf(Escape(m, COMMA_SPACE) + TagsText(tags) + t);
            r.Ok? && r.rest == t && r.value.measurement.text == m && TagSetMeans(r.value.tagSet, tags)
  {
    hide Escape, SeriesOf, TagsMeaning, NameOk, TagsOk;
    if tags == [] {
      assert Escape(m, COMMA_SPACE) + "" + t == Escape(m, COMMA_SPACE) + t;
      UntaggedSeriesInverts(m, t);
    } else {
      hide TagsText;
      assert Escape(m, COMMA_SPACE) + TagsText(tags) + t == Escape(m, COMMA_SPACE) + (TagsText(tags) + t);
      TaggedSeriesInverts(m, tags, t);
    }
  }

  lemma FieldSetInverts(fields: seq<(string, Value)>, t: string)
    requires fields != [] && FieldsOk(fields) && (t == "" || t[0] == ' ')
    ensures var r := FieldSet(FieldText(fields[0]) + FieldsText(fields[1..]) + t);
            r.Ok? && r.rest == t && FieldsMean(r.value, fields)
  {
    hide OneField, FieldText;
    var rest := FieldsText(fields[1..]) + t;
    var i := FieldText(fields[0]) + FieldsText(fields[1..]) + t;
    assert i == FieldText(fields[0]) + rest;
    FieldInverts(fields[0], rest);
    var o := OneField(i).value;
    FieldsMeanAppend([], [], o, fields[0]);
    if |fields| == 1 {
      assert rest == t;
      assert [] + [o] == [o] && [] + [fields[0]] == fields;
    } else {
      var more := FieldsText(fields[2..]) + t;
      assert fields[1..][1..] == fields[2..] && fields[1..][0] == fields[1];
      CommaFirst(FieldText(fields[1]), FieldsText(fields[2..]), t);
      assert rest[1..] == FieldText(fields[1]) + more;
      FieldInverts(fields[1], more);
      var p := OneField(rest[1..]).value;
      FieldsMeanAppend([o], [fields[0]], p, fields[1]);
      assert [o] + [p] == [o, p];
      var res := FieldsInvert([fields[0]] + [fields[1]], fields[2..], t, [o, p]);
      assert [fields[0]] + [fields[1]] + fields[2..] == fields;
    }
  }

  lemma TimestampInverts(ts: Option<I64>)
    ensures OptTimestamp(TimestampText(ts)) == Ok("", ts)
  {
    if ts.Some? {
      var i := TimestampText(ts);
      assert i[1..] == SignedDecimal(ts.value);
      SignedDecimalIntegral(ts.value, "");
      assert i[1..] + "" == i[1..];
      assert SpaceRun(i[1..]) == 0;
      assert i[1..][..|i[1..]|] == i[1..];
    }
  }

  lemma EscapeFirst(s: string, special: set<char>)
    requires s != ""
    ensures Escape(s, special) != ""
    ensures Escape(s, special)[0] == if s[0] in special then '\\' else s[0]
  {
  }

  /** How `ParseLine` puts its parts together. */
  lemma ParseLineParts(i: string, series: Series, fields: string, fieldSet: seq<(EscapedStr, FieldValue)>, ts: string,
                       timestamp: Option<I64>)
    requires SeriesOf(i) == Ok(" " + fields, series) && !StartsWith(fields, ' ')
    requires FieldSet(fields) == Ok(ts, fieldSet) && OptTimestamp(ts) == Ok("", timestamp)
    ensures ParseLine(i) == Ok("", ParsedLine(series, fieldSet, timestamp))
  {
    hide SeriesOf, FieldSet, OptTimestamp;
    assert (" " + fields)[1..] == fields;
    assert SpaceRun(" " + fields) == 1;
  }

  lemma FieldsStart(fields: seq<(string, Value)>, t: string)
    requires fields != [] && NameOk(fields[0].0)
    ensures !StartsWith(FieldText(fields[0]) + FieldsText(fields[1..]) + t, ' ')
  {
    hide FieldsText, ValueText;
    EscapeFirst(fields[0].0, COMMA_EQ_SPACE);
  }

  lemma Regroup(a: string, b: string, c: string, d: string, e: string)
    ensures a + b + " " + c + d + e == a + b + (" " + (c + d + e))
  {
  }

  /** The parser reads a built line completely, and as what was built. */
  lemma LineInverts(l: Line)
    requires WellFormed(l) && l.fields != []
    ensures var r := ParseLine(LineText(l));
            r.Ok? && r.rest == "" && Means(r.value, l)
  {
    var ts := TimestampText(l.timestamp);
    assert ts == "" || ts[0] == ' ';
    hide SeriesOf, FieldSet, OptTimestamp, TimestampText, TagsText, FieldText, FieldsText, Escape, ParseLine;
    hide FieldsMean, TagSetMeans;
    hide TagsOk, NameOk, IsDecimalText, IntegralLength, DigitRun;
    var fields := FieldText(l.fields[0]) + FieldsText(l.fields[1..]) + ts;
    Regroup(Escape(l.measurement, COMMA_SPACE), TagsText(l.tags),
            FieldText(l.fields[0]), FieldsText(l.fields[1..]), ts);
    SeriesInverts(l.measurement, l.tags, " " + fields);
    FieldsStart(l.fields, ts);
    FieldSetInverts(l.fields, ts);
    TimestampInverts(l.timestamp);
    ParseLineParts(LineText(l), SeriesOf(LineText(l)).value, fields, FieldSet(fields).value, ts, l.timestamp);
  }

  lemma NothingToTrim(l: Line)
    requires WellFormed(l) && l.fields != []
    ensures TrimLeading(LineText(l)) == LineText(l)
  {
    EscapeFirst(l.measurement, COMMA_SPACE);
    assert l.measurement[0] in l.measurement;
    assert LineText(l)[0] == Escape(l.measurement, COMMA_SPACE)[0];
    assert BoundaryRun(LineText(l)) == 0;
    assert LineText(l)[0..] == LineText(l);
  }
}
