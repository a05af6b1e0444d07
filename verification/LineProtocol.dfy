/** The line protocol: its data, the text a builder writes for it, and the parser. */
module LineProtocol {
  import opened Basics

  type I64 = x: int | -0x8000_0000_0000_0000 <= x < 0x8000_0000_0000_0000
  type U64 = x: int | 0 <= x < 0x1_0000_0000_0000_0000

  // ---------------------------------------------------------------------------------------------
  // Lines and the text a builder writes for them
  // ---------------------------------------------------------------------------------------------

  /** `-?[0-9]+(\.[0-9]+)?`, the text a finite floating point value is written as. */
  predicate IsDecimalText(s: string) {
    var n := IntegralLength(s);
    && n > 0
    && (n == |s| || (s[n] == '.' && |s| > n + 1 && DigitRun(s[n + 1..]) == |s| - n - 1))
  }

  type DecimalText = s: string | IsDecimalText(s) witness "0"

  /** A floating point value is kept as the decimal text that stands for it. */
  datatype Value = Int(i: I64) | UInt(u: U64) | Float(text: DecimalText) | Str(s: string) | Bool(b: bool)

  datatype Line = Line(
    measurement: string,
    tags: seq<(string, string)>,
    fields: seq<(string, Value)>,
    timestamp: Option<I64>)

  const COMMA_EQ_SPACE: set<char> := {',', '=', ' '}
  const COMMA_SPACE: set<char> := {',', ' '}
  const DOUBLE_QUOTE: set<char> := {'"'}

  /** Writes a backslash before every special character and every backslash. */
  function Escape(src: string, special: set<char>): string {
    if src == "" then "" else EscapeChar(src[0], special) + Escape(src[1..], special)
  }

  function EscapeChar(c: char, special: set<char>): string {
    if c in special || c == '\\' then ['\\', c] else [c]
  }

  function Digit(d: nat): char
    requires d < 10
  {
    (d + 48) as char
  }

  function Decimal(n: nat): string {
    if n < 10 then [Digit(n)] else Decimal(n / 10) + [Digit(n % 10)]
  }

  function SignedDecimal(v: int): string {
    if v < 0 then "-" + Decimal(-v) else Decimal(v)
  }

  function ValueText(v: Value): string {
    match v
    case Int(i) => SignedDecimal(i) + "i"
    case UInt(u) => Decimal(u) + "u"
    case Float(text) => text
    case Str(s) => "\"" + Escape(s, DOUBLE_QUOTE) + "\""
    case Bool(b) => if b then "true" else "false"
  }

  function TagText(t: (string, string)): string {
    Escape(t.0, COMMA_EQ_SPACE) + "=" + Escape(t.1, COMMA_EQ_SPACE)
  }

  function FieldText(f: (string, Value)): string {
    Escape(f.0, COMMA_EQ_SPACE) + "=" + ValueText(f.1)
  }

  function TagsText(tags: seq<(string, string)>): string {
    if tags == [] then "" else "," + TagText(tags[0]) + TagsText(tags[1..])
  }

  /** The fields after the first one. */
  function FieldsText(fields: seq<(string, Value)>): string {
    if fields == [] then "" else "," + FieldText(fields[0]) + FieldsText(fields[1..])
  }

  function TimestampText(t: Option<I64>): string {
    match t
    case None => ""
    case Some(ts) => " " + SignedDecimal(ts)
  }

  /** A line without its closing newline. The builder's types make sure there is a field. */
  function LineText(l: Line): string
    requires l.fields != []
  {
    Escape(l.measurement, COMMA_SPACE) + TagsText(l.tags)
    + " " + FieldText(l.fields[0]) + FieldsText(l.fields[1..]) + TimestampText(l.timestamp)
  }

  predicate Built(lines: seq<Line>) {
    forall l <- lines :: l.fields != []
  }

  function BatchText(lines: seq<Line>): string
    requires Built(lines)
  {
    if lines == [] then "" else LineText(lines[0]) + "\n" + BatchText(lines[1..])
  }

  // ---------------------------------------------------------------------------------------------
  // Splitting a batch into lines
  // ---------------------------------------------------------------------------------------------

  datatype SplitState = SplitState(quoted: bool, fields: bool, equals: nat, commas: nat, inEscape: bool)

  const START := SplitState(false, false, 0, 0, false)

  /** One character: the next state, and whether the input is split here. */
  function SplitStep(st: SplitState, c: char): (SplitState, bool) {
    if st.inEscape then (st.(inEscape := false), false)
    else if c == '\\' then (st.(inEscape := true), false)
    else if c == ' ' then (st.(fields := true), false)
    else if st.fields && !st.quoted && c == '=' then (st.(equals := st.equals + 1), false)
    else if st.fields && !st.quoted && c == ',' then (st.(commas := st.commas + 1), false)
    else if st.fields && c == '"' && st.equals > st.commas then (st.(quoted := !st.quoted), false)
    else if c == '\n' && !st.quoted then (START, true)
    else (st, false)
  }

  /** The pieces between the characters at which the input is split. */
  function Pieces(st: SplitState, input: string): (r: seq<string>)
    ensures |r| > 0
    decreases |input|
  {
    if input == "" then [""]
    else
      var (st', split) := SplitStep(st, input[0]);
      var pieces := Pieces(st', input[1..]);
      if split then [""] + pieces else [[input[0]] + pieces[0]] + pieces[1..]
  }

  function SplitLines(input: string): seq<string> {
    Pieces(START, input)
  }

  // ---------------------------------------------------------------------------------------------
  // Parser results
  // ---------------------------------------------------------------------------------------------

  datatype ParseError =
    | FieldSetMissing
    | IntegerValueInvalid(value: string)
    | UIntegerValueInvalid(value: string)
    | TimestampValueInvalid(value: string)
    | EndsWithBackslash
    | CannotParseEntireLine(trailing: string)
    | Generic

  /** An error lets an alternative be tried, a failure does not. */
  datatype Parsed<+T> = Ok(rest: string, value: T) | Error(e: ParseError) | Failure(e: ParseError)

  /** A string of the input; escapes make it a copy. */
  datatype EscapedStr = SingleSlice(text: string) | CopiedValue(text: string)

  function Concat(slices: seq<string>): string {
    if slices == [] then "" else slices[0] + Concat(slices[1..])
  }

  function FromSlices(slices: seq<string>): EscapedStr {
    if |slices| == 0 then SingleSlice("")
    else if |slices| == 1 then SingleSlice(slices[0])
    else CopiedValue(Concat(slices))
  }

  datatype FieldValue = I64V(i: I64) | U64V(u: U64) | F64V(text: string) | StringV(s: EscapedStr) | BooleanV(b: bool)

  datatype Series = Series(rawInput: string, measurement: EscapedStr, tagSet: Option<seq<(EscapedStr, EscapedStr)>>)

  datatype ParsedLine = ParsedLine(series: Series, fieldSet: seq<(EscapedStr, FieldValue)>, timestamp: Option<I64>)

  // ---------------------------------------------------------------------------------------------
  // Names
  // ---------------------------------------------------------------------------------------------

  datatype Role = Measurement | Key | TagValue

  predicate IsWhitespaceBoundary(c: char) {
    c == ' ' || c == '\t' || c == '\n'
  }

  predicate Normal(role: Role, c: char) {
    !IsWhitespaceBoundary(c) && c != '\\' && c != if role.Key? then '=' else ','
  }

  predicate Escapable(role: Role, c: char) {
    c == ' ' || c == ',' || c == '\\' || (c == '=' && !role.Measurement?)
  }

  /** Length of the longest prefix of normal characters. */
  function NormalRun(role: Role, i: string): (n: nat)
    ensures n <= |i|
    ensures n > 0 <==> i != "" && Normal(role, i[0])
  {
    if i != "" && Normal(role, i[0]) then 1 + NormalRun(role, i[1..]) else 0
  }

  /** One round of the scanning loop: how many characters it takes, and the slices it adds. A backslash
      before a character that needs no escape stands for itself, and so does that character. */
  function ScanRound(role: Role, i: string): (r: (nat, seq<string>))
    ensures r.0 <= |i| && (r.0 == 0 <==> r.1 == [])
  {
    var n := NormalRun(role, i);
    if n > 0 then (n, [i[..n]])
    else if i == "" || i[0] != '\\' then (0, [])
    else if |i| == 1 then (1, ["\\"])
    else if Escapable(role, i[1]) then (2, [[i[1]]])
    else (2, ["\\", [i[1]]])
  }

  /** Unescaped text interspersed with escaped characters: the slices, and what is left. */
  function Scan(role: Role, i: string): (r: (seq<string>, string))
    ensures |r.1| <= |i|
    ensures r.0 == [] <==> r.1 == i
    decreases |i|
  {
    var (n, slices) := ScanRound(role, i);
    if n == 0 then ([], i) else var (more, rest) := Scan(role, i[n..]); (slices + more, rest)
  }

  predicate EndsIn(s: string, c: char) {
    s != "" && s[|s| - 1] == c
  }

  function Name(role: Role, i: string): (r: Parsed<EscapedStr>)
    ensures r.Ok? ==> |r.rest| < |i|
  {
    var (slices, rest) := Scan(role, i);
    if slices == [] then Error(Generic)
    else if EndsIn(FromSlices(slices).text, '\\') then Failure(EndsWithBackslash)
    else Ok(rest, FromSlices(slices))
  }

  predicate StartsWith(i: string, c: char) {
    i != "" && i[0] == c
  }

  // ---------------------------------------------------------------------------------------------
  // Lists
  // ---------------------------------------------------------------------------------------------

  /** What a parser leaves is no longer than what it was given. */
  ghost predicate NeverGrows<T(!new)>(f: string -> Parsed<T>) {
    forall i :: f(i).Ok? ==> |f(i).rest| <= |i|
  }

  /** Zero or more elements separated by commas; a comma not followed by an element is not consumed. A first
      element that consumes nothing is an error; after a comma it is not. */
  function SeparatedList<T(!new)>(f: string -> Parsed<T>, i: string): (r: Parsed<seq<T>>)
    requires NeverGrows(f)
    ensures r.Ok? ==> |r.rest| <= |i|
  {
    match f(i)
    case Error(_) => Ok(i, [])
    case Failure(e) => Failure(e)
    case Ok(rest, o) => if rest == i then Error(Generic) else ListTail(f, rest, [o])
  }

  function ListTail<T(!new)>(f: string -> Parsed<T>, i: string, res: seq<T>): (r: Parsed<seq<T>>)
    requires NeverGrows(f)
    ensures !r.Error? && (r.Ok? ==> |r.rest| <= |i|)
    decreases |i|
  {
    if !StartsWith(i, ',') then Ok(i, res)
    else match f(i[1..])
      case Error(_) => Ok(i, res)
      case Failure(e) => Failure(e)
      case Ok(rest, o) => ListTail(f, rest, res + [o])
  }

  /** One or more elements; a comma after the first one is consumed in any case. */
  function SeparatedList1<T(!new)>(f: string -> Parsed<T>, i: string): (r: Parsed<seq<T>>)
    requires NeverGrows(f)
    ensures r.Ok? ==> |r.rest| <= |i|
  {
    match f(i)
    case Error(e) => Error(e)
    case Failure(e) => Failure(e)
    case Ok(rest, first) =>
      if !StartsWith(rest, ',') then Ok(rest, [first])
      else match f(rest[1..])
        case Error(_) => Ok(rest[1..], [first])
        case Failure(e) => Failure(e)
        case Ok(rest', o) => if rest' == rest[1..] then Error(Generic) else ListTail(f, rest', [first, o])
  }

  // ---------------------------------------------------------------------------------------------
  // Numbers
  // ---------------------------------------------------------------------------------------------

  predicate IsDigit(c: char) {
    '0' <= c <= '9'
  }

  function DigitRun(i: string): (n: nat)
    ensures n <= |i|
    ensures n > 0 <==> i != "" && IsDigit(i[0])
    ensures forall k :: 0 <= k < n ==> IsDigit(i[k])
  {
    if i != "" && IsDigit(i[0]) then 1 + DigitRun(i[1..]) else 0
  }

  /** The number of characters `-?[0-9]+` takes, 0 if it does not match. */
  function IntegralLength(i: string): (n: nat)
    ensures n <= |i|
  {
    if StartsWith(i, '-') then (if DigitRun(i[1..]) > 0 then 1 + DigitRun(i[1..]) else 0) else DigitRun(i)
  }

  function DigitsValue(s: string): nat
    requires forall c <- s :: IsDigit(c)
  {
    if s == "" then 0
    else
      assert IsDigit(s[|s| - 1]);
      10 * DigitsValue(s[..|s| - 1]) + (s[|s| - 1] as int - 48)
  }

  /** The value of `-?[0-9]+`. */
  function IntegralValue(s: string): int
    requires s != "" && IntegralLength(s) == |s|
  {
    if s[0] == '-' then
      assert forall c <- s[1..] :: IsDigit(c);
      0 - DigitsValue(s[1..])
    else DigitsValue(s)
  }

  function IntegerValue(i: string): (r: Parsed<I64>)
    ensures r.Ok? ==> |r.rest| < |i|
  {
    var n := IntegralLength(i);
    if n == 0 || !StartsWith(i[n..], 'i') then Error(Generic)
    else
      IntegralPrefix(i);
      var v := IntegralValue(i[..n]);
      if -0x8000_0000_0000_0000 <= v < 0x8000_0000_0000_0000 then Ok(i[n + 1..], v)
      else Failure(IntegerValueInvalid(i[..n]))
  }

  function UIntegerValue(i: string): (r: Parsed<U64>)
    ensures r.Ok? ==> |r.rest| < |i|
  {
    var n := DigitRun(i);
    if n == 0 || !StartsWith(i[n..], 'u') then Error(Generic)
    else
      var v := DigitsValue(i[..n]);
      if v < 0x1_0000_0000_0000_0000 then Ok(i[n + 1..], v)
      else Failure(UIntegerValueInvalid(i[..n]))
  }

  lemma DigitRunTake(i: string, n: nat)
    requires n <= DigitRun(i)
    ensures DigitRun(i[..n]) == n
  {
    if n > 0 {
      assert i[..n][1..] == i[1..][..n - 1];
      DigitRunTake(i[1..], n - 1);
    }
  }

  lemma IntegralPrefix(i: string)
    ensures IntegralLength(i[..IntegralLength(i)]) == IntegralLength(i)
  {
    var n := IntegralLength(i);
    if n > 0 && i[0] == '-' {
      assert i[..n][1..] == i[1..][..n - 1];
      DigitRunTake(i[1..], n - 1);
    } else if n > 0 {
      DigitRunTake(i, n);
    }
  }

  /** The number of characters `[0-9]+[eE][-+]?[0-9]+` takes, 0 if it does not match. */
  function ExponentialLength(i: string): (n: nat)
    ensures n <= |i|
  {
    var n := DigitRun(i);
    if n == 0 || n == |i| || (i[n] != 'e' && i[n] != 'E') then 0
    else
      var m := if n + 1 < |i| && (i[n + 1] == '-' || i[n + 1] == '+') then n + 2 else n + 1;
      if DigitRun(i[m..]) == 0 then 0 else m + DigitRun(i[m..])
  }

  /** The text of a floating point value, by the four alternatives in turn. */
  function FloatLength(i: string): (n: nat)
    ensures n <= |i|
  {
    var n := IntegralLength(i);
    var dot := n > 0 && StartsWith(i[n..], '.');
    if dot && ExponentialLength(i[n + 1..]) > 0 then n + 1 + ExponentialLength(i[n + 1..])
    else if StartsWith(i, '-') && ExponentialLength(i[1..]) > 0 then 1 + ExponentialLength(i[1..])
    else if !StartsWith(i, '-') && ExponentialLength(i) > 0 then ExponentialLength(i)
    else if dot && DigitRun(i[n + 1..]) > 0 then n + 1 + DigitRun(i[n + 1..])
    else n
  }

  function FloatValue(i: string): (r: Parsed<string>)
    ensures r.Ok? ==> |r.rest| < |i|
  {
    var n := FloatLength(i);
    if n == 0 then Error(Generic) else Ok(i[n..], i[..n])
  }

  function TimestampValue(i: string): (r: Parsed<I64>)
    ensures r.Ok? ==> |r.rest| < |i|
  {
    var n := IntegralLength(i);
    if n == 0 then Error(Generic)
    else
      IntegralPrefix(i);
      var v := IntegralValue(i[..n]);
      if -0x8000_0000_0000_0000 <= v < 0x8000_0000_0000_0000 then Ok(i[n..], v)
      else Failure(TimestampValueInvalid(i[..n]))
  }

  // ---------------------------------------------------------------------------------------------
  // Strings and booleans
  // ---------------------------------------------------------------------------------------------

  function PlainRun(i: string): (n: nat)
    ensures n <= |i|
    ensures n > 0 <==> i != "" && i[0] != '\\' && i[0] != '"'
  {
    if i != "" && i[0] != '\\' && i[0] != '"' then 1 + PlainRun(i[1..]) else 0
  }

  /** The slices of a quoted string up to its closing quote, and what is left. */
  function StringData(i: string): (r: (seq<string>, string))
    ensures |r.1| <= |i|
    ensures r.1 == "" || r.1[0] == '"'
    decreases |i|
  {
    var n := PlainRun(i);
    if n > 0 then
      var (slices, rest) := StringData(i[n..]);
      ([i[..n]] + slices, rest)
    else if i == "" || i[0] == '"' then ([], i)
    else if |i| > 1 && (i[1] == '"' || i[1] == '\\') then
      var (slices, rest) := StringData(i[2..]);
      ([[i[1]]] + slices, rest)
    else
      var (slices, rest) := StringData(i[1..]);
      (["\\"] + slices, rest)
  }

  function StringValue(i: string): (r: Parsed<EscapedStr>)
    ensures r.Ok? ==> |r.rest| < |i|
  {
    if !StartsWith(i, '"') then Error(Generic)
    else
      var (slices, rest) := StringData(i[1..]);
      if rest == "" then Error(Generic) else Ok(rest[1..], FromSlices(slices))
  }

  predicate HasPrefix(i: string, p: string) {
    |p| <= |i| && i[..|p|] == p
  }

  const TRUE_WORDS: seq<string> := ["true", "True", "TRUE", "t", "T"]
  const FALSE_WORDS: seq<string> := ["false", "False", "FALSE", "f", "F"]

  /** The first of `words` that `i` starts with. */
  function FirstWord(words: seq<string>, i: string): (r: Option<string>)
    ensures r.Some? ==> r.value in words && HasPrefix(i, r.value)
  {
    if words == [] then None
    else if HasPrefix(i, words[0]) then Some(words[0])
    else FirstWord(words[1..], i)
  }

  function BoolValue(i: string): (r: Parsed<bool>)
    ensures r.Ok? ==> |r.rest| < |i|
  {
    match FirstWord(TRUE_WORDS, i)
    case Some(w) => Ok(i[|w|..], true)
    case None =>
      match FirstWord(FALSE_WORDS, i)
      case Some(w) => Ok(i[|w|..], false)
      case None => Error(Generic)
  }

  function FieldValueOf(i: string): (r: Parsed<FieldValue>)
    ensures r.Ok? ==> |r.rest| < |i|
  {
    match IntegerValue(i)
    case Ok(rest, v) => Ok(rest, I64V(v))
    case Failure(e) => Failure(e)
    case Error(_) =>
      match UIntegerValue(i)
      case Ok(rest, v) => Ok(rest, U64V(v))
      case Failure(e) => Failure(e)
      case Error(_) =>
        match FloatValue(i)
        case Ok(rest, v) => Ok(rest, F64V(v))
        case Failure(e) => Failure(e)
        case Error(_) =>
          match StringValue(i)
          case Ok(rest, v) => Ok(rest, StringV(v))
          case Failure(e) => Failure(e)
          case Error(_) =>
            match BoolValue(i)
            case Ok(rest, v) => Ok(rest, BooleanV(v))
            case Failure(e) => Failure(e)
            case Error(e) => Error(e)
  }

  // ---------------------------------------------------------------------------------------------
  // Lines
  // ---------------------------------------------------------------------------------------------

  function OneTag(i: string): (r: Parsed<(EscapedStr, EscapedStr)>)
    ensures r.Ok? ==> |r.rest| < |i|
  {
    match Name(Key, i)
    case Error(e) => Error(e)
    case Failure(e) => Failure(e)
    case Ok(rest, key) =>
      if !StartsWith(rest, '=') then Error(Generic)
      else match Name(TagValue, rest[1..])
        case Error(e) => Error(e)
        case Failure(e) => Failure(e)
        case Ok(rest', value) => Ok(rest', (key, value))
  }

  function OneField(i: string): (r: Parsed<(EscapedStr, FieldValue)>)
    ensures r.Ok? ==> |r.rest| < |i|
  {
    match Name(Key, i)
    case Error(e) => Error(e)
    case Failure(e) => Failure(e)
    case Ok(rest, key) =>
      if !StartsWith(rest, '=') then Error(Generic)
      else match FieldValueOf(rest[1..])
        case Error(e) => Error(e)
        case Failure(e) => Failure(e)
        case Ok(rest', value) => Ok(rest', (key, value))
  }

  function SeriesOf(i: string): (r: Parsed<Series>)
    ensures r.Ok? ==> |r.rest| < |i|
  {
    match Name(Measurement, i)
    case Error(e) => Error(e)
    case Failure(e) => Failure(e)
    case Ok(rest, m) =>
      if !StartsWith(rest, ',') then Ok(rest, Series(i[..|i| - |rest|], m, None))
      else match SeparatedList(OneTag, rest[1..])
        case Error(_) => Ok(rest, Series(i[..|i| - |rest|], m, None))
        case Failure(e) => Failure(e)
        case Ok(rest', tags) => Ok(rest', Series(i[..|i| - |rest'|], m, Some(tags)))
  }

  function FieldSet(i: string): (r: Parsed<seq<(EscapedStr, FieldValue)>>)
    ensures r.Ok? ==> |r.rest| <= |i|
  {
    match SeparatedList1(OneField, i)
    case Error(_) => Error(FieldSetMissing)
    case other => other
  }

  function SpaceRun(i: string): (n: nat)
    ensures n <= |i|
    ensures n > 0 <==> StartsWith(i, ' ')
  {
    if StartsWith(i, ' ') then 1 + SpaceRun(i[1..]) else 0
  }

  /** A timestamp after spaces, with spaces after it; without one nothing is consumed. */
  function OptTimestamp(i: string): (r: Parsed<Option<I64>>)
    ensures !r.Error?
  {
    var n := SpaceRun(i);
    if n == 0 then Ok(i, None)
    else match TimestampValue(i[n..])
      case Error(_) => Ok(i, None)
      case Failure(e) => Failure(e)
      case Ok(rest, ts) => Ok(rest[SpaceRun(rest)..], Some(ts))
  }

  function ParseLine(i: string): Parsed<ParsedLine> {
    match SeriesOf(i)
    case Error(e) => Error(e)
    case Failure(e) => Failure(e)
    case Ok(rest, series) =>
      var n := SpaceRun(rest);
      if n == 0 then Error(Generic)
      else match FieldSet(rest[n..])
        case Error(e) => Error(e)
        case Failure(e) => Failure(e)
        case Ok(rest', fields) =>
          match OptTimestamp(rest')
          case Error(e) => Error(e)
          case Failure(e) => Failure(e)
          case Ok(rest'', ts) => Ok(rest'', ParsedLine(series, fields, ts))
  }

  function BoundaryRun(i: string): (n: nat)
    ensures n <= |i|
    ensures n > 0 <==> i != "" && IsWhitespaceBoundary(i[0])
  {
    if i != "" && IsWhitespaceBoundary(i[0]) then 1 + BoundaryRun(i[1..]) else 0
  }

  /** Position of the first newline, or the length if there is none. */
  function NewlineAt(i: string): (n: nat)
    ensures n <= |i|
    ensures i != "" && i[0] != '\n' ==> n > 0
  {
    if i == "" || i[0] == '\n' then 0 else 1 + NewlineAt(i[1..])
  }

  /** Drops leading whitespace and comment lines. */
  function TrimLeading(i: string): (r: string)
    ensures r == "" || (r[0] != '#' && !IsWhitespaceBoundary(r[0]))
    decreases |i|
  {
    var t := i[BoundaryRun(i)..];
    BoundaryRunIsMaximal(i);
    if !StartsWith(t, '#') then t else TrimLeading(t[NewlineAt(t)..])
  }

  lemma BoundaryRunIsMaximal(i: string)
    ensures BoundaryRun(i) < |i| ==> !IsWhitespaceBoundary(i[BoundaryRun(i)])
  {
  }

  datatype LineResult = Good(line: ParsedLine) | Bad(error: ParseError)

  /** What one piece of the input contributes: nothing, a line or an error. */
  function ParsePiece(piece: string): seq<LineResult> {
    var i := TrimLeading(piece);
    if i == "" then []
    else match ParseLine(i)
      case Ok(rest, line) => if rest == "" then [Good(line)] else [Bad(CannotParseEntireLine(rest))]
      case Error(e) => [Bad(e)]
      case Failure(e) => [Bad(e)]
  }

  function ParsePieces(pieces: seq<string>): seq<LineResult> {
    if pieces == [] then [] else ParsePiece(pieces[0]) + ParsePieces(pieces[1..])
  }

  function ParseLines(input: string): seq<LineResult> {
    ParsePieces(SplitLines(input))
  }
}
