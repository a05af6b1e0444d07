/** The builder: a buffer that every call appends to, in an order its types enforce. */
module LineBuilder {
  import opened Basics
  import opened LineProtocol
  import opened RoundTrip
  import opened BatchRoundTrip

  /** What the next call may be. */
  datatype Phase = BeforeMeasurement | AfterMeasurement | AfterField | AfterTimestamp

  /** The text of a line that is still open. */
  function OpenText(l: Line): string {
    Escape(l.measurement, COMMA_SPACE) + TagsText(l.tags)
    + (if l.fields == [] then ""
       else " " + FieldText(l.fields[0]) + FieldsText(l.fields[1..]) + TimestampText(l.timestamp))
  }

  lemma {:induction false} TagsTextAppend(tags: seq<(string, string)>, t: (string, string))
    ensures TagsText(tags + [t]) == TagsText(tags) + "," + TagText(t)
  {
    hide TagText;
    if tags == [] {
      assert tags + [t] == [t] && [t][1..] == [];
    } else {
      assert (tags + [t])[0] == tags[0] && (tags + [t])[1..] == tags[1..] + [t];
      TagsTextAppend(tags[1..], t);
    }
  }

  lemma {:induction false} FieldsTextAppend(fields: seq<(string, Value)>, f: (string, Value))
    ensures FieldsText(fields + [f]) == FieldsText(fields) + "," + FieldText(f)
  {
    hide FieldText, IsDecimalText;
    if fields == [] {
      assert fields + [f] == [f] && [f][1..] == [];
    } else {
      assert (fields + [f])[0] == fields[0] && (fields + [f])[1..] == fields[1..] + [f];
      FieldsTextAppend(fields[1..], f);
    }
  }

  lemma {:induction false} BatchTextAppend(lines: seq<Line>, l: Line)
    requires Built(lines) && l.fields != []
    ensures BatchText(lines + [l]) == BatchText(lines) + LineText(l) + "\n"
  {
    hide LineText, IsDecimalText;
    if lines == [] {
      assert lines + [l] == [l] && [l][1..] == [];
    } else {
      assert (lines + [l])[0] == lines[0] && (lines + [l])[1..] == lines[1..] + [l];
      BatchTextAppend(lines[1..], l);
    }
  }

  lemma {:induction false} EscapeAppend(s: string, c: char, special: set<char>)
    ensures Escape(s + [c], special) == Escape(s, special) + EscapeChar(c, special)
  {
    if s == "" {
      assert s + [c] == [c] && [c][1..] == "";
    } else {
      assert (s + [c])[0] == s[0] && (s + [c])[1..] == s[1..] + [c];
      EscapeAppend(s[1..], c, special);
    }
  }

  class LineProtocolBuilder {
    var buf: string
    var phase: Phase
    /** What the buffer held at first, the lines closed since, and the line that is open. */
    ghost const start: string
    ghost var lines: seq<Line>
    ghost var open: Line

    ghost predicate Valid()
      reads this
    {
      && Built(lines)
      && match phase
        case BeforeMeasurement => buf == start + BatchText(lines)
        case AfterMeasurement =>
          buf == start + BatchText(lines) + OpenText(open) && open.fields == [] && open.timestamp.None?
        case AfterField => buf == start + BatchText(lines) + OpenText(open) && open.fields != [] && open.timestamp.None?
        case AfterTimestamp => buf == start + BatchText(lines) + OpenText(open) && open.fields != []
    }

    constructor (buf: string)
      ensures Valid() && this.buf == start == buf && phase == BeforeMeasurement && lines == []
    {
      this.buf, phase, start, lines := buf, BeforeMeasurement, buf, [];
      new;
      assert buf + "" == buf;
    }

    method Write(text: string)
      modifies this`buf
      ensures buf == old(buf) + text
    {
      buf := buf + text;
    }

    method WriteEscaped(src: string, special: set<char>)
      modifies this`buf
      ensures buf == old(buf) + Escape(src, special)
    {
      assert old(buf) + "" == old(buf);
      for i := 0 to |src|
        invariant buf == old(buf) + Escape(src[..i], special)
      {
        assert src[..i + 1] == src[..i] + [src[i]];
        EscapeAppend(src[..i], src[i], special);
        if src[i] in special || src[i] == '\\' {
          Write("\\");
        }
        Write([src[i]]);
      }
      assert src[..|src|] == src;
    }

    /** A number and the letter that tells its type. */
    method WriteNumber(digits: string, suffix: string)
      modifies this`buf
      ensures buf == old(buf) + (digits + suffix)
    {
      Write(digits);
      Write(suffix);
    }

    method WriteString(s: string)
      modifies this`buf
      ensures buf == old(buf) + ("\"" + Escape(s, DOUBLE_QUOTE) + "\"")
    {
      hide Escape;
      Write("\"");
      WriteEscaped(s, DOUBLE_QUOTE);
      Write("\"");
    }

    method WriteValue(v: Value)
      modifies this`buf
      ensures buf == old(buf) + ValueText(v)
    {
      hide Escape, Decimal, IsDecimalText, IntegralLength, DigitRun;
      match v
      case Int(i) => WriteNumber(SignedDecimal(i), "i");
      case UInt(u) => WriteNumber(Decimal(u), "u");
      case Float(text) => Write(text);
      case Str(s) => WriteString(s);
      case Bool(b) => Write(if b then "true" else "false");
    }

    method WriteField(key: string, value: Value)
      modifies this`buf
      ensures buf == old(buf) + FieldText((key, value))
    {
      hide ValueText, Escape;
      WriteEscaped(key, COMMA_EQ_SPACE);
      Write("=");
      WriteValue(value);
    }

    method Measurement(measurement: string)
      requires Valid() && phase == BeforeMeasurement
      modifies this
      ensures Valid() && phase == AfterMeasurement && lines == old(lines) && open == Line(measurement, [], [], None)
    {
      hide Escape, BatchText;
      WriteEscaped(measurement, COMMA_SPACE);
      phase, open := AfterMeasurement, Line(measurement, [], [], None);
      assert OpenText(open) == Escape(measurement, COMMA_SPACE);
    }

    method Tag(key: string, value: string)
      requires Valid() && phase == AfterMeasurement
      modifies this
      ensures Valid() && phase == AfterMeasurement && lines == old(lines)
      ensures open == old(open).(tags := old(open).tags + [(key, value)])
    {
      hide Escape, BatchText, TagsText;
      Write(",");
      WriteEscaped(key, COMMA_EQ_SPACE);
      Write("=");
      WriteEscaped(value, COMMA_EQ_SPACE);
      TagsTextAppend(open.tags, (key, value));
      open := open.(tags := open.tags + [(key, value)]);
    }

    /** The first field comes after a space, every further one after a comma. */
    method Field(key: string, value: Value)
      requires Valid() && (phase == AfterMeasurement || phase == AfterField)
      modifies this
      ensures Valid() && phase == AfterField && lines == old(lines)
      ensures open == old(open).(fields := old(open).fields + [(key, value)])
    {
      hide Escape, BatchText, TagsText, FieldText, FieldsText, IsDecimalText;
      if phase == AfterMeasurement {
        Write(" ");
        FirstField(open, (key, value));
      } else {
        Write(",");
        LaterField(open, (key, value));
      }
      WriteField(key, value);
      phase, open := AfterField, open.(fields := open.fields + [(key, value)]);
    }

    method Timestamp(ts: I64)
      requires Valid() && phase == AfterField
      modifies this
      ensures Valid() && phase == AfterTimestamp && lines == old(lines)
      ensures open == old(open).(timestamp := Some(ts))
    {
      hide Escape, BatchText, TagsText, FieldText, FieldsText;
      Write(" ");
      Write(SignedDecimal(ts));
      phase, open := AfterTimestamp, open.(timestamp := Some(ts));
    }

    method CloseLine()
      requires Valid() && (phase == AfterField || phase == AfterTimestamp)
      modifies this
      ensures Valid() && phase == BeforeMeasurement && lines == old(lines) + [old(open)]
    {
      hide Escape, BatchText, TagsText, FieldText, FieldsText;
      Write("\n");
      BatchTextAppend(lines, open);
      OpenIsLine(open);
      phase, lines := BeforeMeasurement, lines + [open];
    }

    /** The text of the lines in the order they were closed. */
    method Build() returns (text: string)
      requires Valid() && phase == BeforeMeasurement
      ensures text == start + BatchText(lines)
      ensures start == "" ==> (ReadAs(ParseLines(text), lines) <==> forall l <- lines :: WellFormed(l))
    {
      hide ParseLines, BatchText, WellFormed, ReadAs;
      text := buf;
      assert start == "" ==> text == BatchText(lines);
      RoundTripsIff(lines);
    }
  }

  lemma FirstField(l: Line, f: (string, Value))
    requires l.fields == [] && l.timestamp.None?
    ensures OpenText(l.(fields := l.fields + [f])) == OpenText(l) + " " + FieldText(f)
  {
    hide Escape, TagsText, FieldText;
    assert (l.fields + [f])[1..] == [];
  }

  lemma LaterField(l: Line, f: (string, Value))
    requires l.fields != [] && l.timestamp.None?
    ensures OpenText(l.(fields := l.fields + [f])) == OpenText(l) + "," + FieldText(f)
  {
    hide Escape, TagsText, FieldText, FieldsText;
    assert (l.fields + [f])[1..] == l.fields[1..] + [f];
    FieldsTextAppend(l.fields[1..], f);
  }

  lemma OpenIsLine(l: Line)
    requires l.fields != []
    ensures OpenText(l) == LineText(l)
  {
    hide Escape, TagsText, FieldText, FieldsText, TimestampText;
  }
}
