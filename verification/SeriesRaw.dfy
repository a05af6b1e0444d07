/** When the raw text of a parsed series is the base that sorting would give. */
module SeriesRaw {
  import opened Basics
  import opened LineProtocol
  import opened RoundTrip
  import opened SeriesBase

  /** Without a backslash the raw text is the text itself, with one it is longer. */
  predicate Faithful(raw: string, text: string) {
    if '\\' in raw then |raw| > |text| else raw == text
  }

  lemma FaithfulAppend(a: string, x: string, b: string, y: string)
    requires Faithful(a, x) && Faithful(b, y)
    ensures Faithful(a + b, x + y)
  {
  }

  predicate IsSuffix(i: string, rest: string) {
    |rest| <= |i| && i[|i| - |rest|..] == rest
  }

  /** What a parser took from `i` if it left `rest`. */
  function Taken(i: string, rest: string): (r: string)
    requires IsSuffix(i, rest)
    ensures r + rest == i
  {
    i[..|i| - |rest|]
  }

  lemma SuffixOfSuffix(i: string, mid: string, rest: string)
    requires IsSuffix(i, mid) && IsSuffix(mid, rest)
    ensures IsSuffix(i, rest) && Taken(i, rest) == Taken(i, mid) + Taken(mid, rest)
  {
    assert i == Taken(i, mid) + (Taken(mid, rest) + rest);
    assert i == Taken(i, mid) + Taken(mid, rest) + rest;
  }

  lemma DropIsSuffix(i: string, n: nat)
    requires n <= |i|
    ensures IsSuffix(i, i[n..]) && Taken(i, i[n..]) == i[..n]
  {
  }

  // ---------------------------------------------------------------------------------------------
  // Names
  // ---------------------------------------------------------------------------------------------

  lemma {:induction false} ScanLeavesSuffix(role: Role, i: string)
    ensures IsSuffix(i, Scan(role, i).1)
    decreases |i|
  {
    var n := ScanRound(role, i).0;
    if n > 0 {
      ScanLeavesSuffix(role, i[n..]);
      DropIsSuffix(i, n);
      SuffixOfSuffix(i, i[n..], Scan(role, i[n..]).1);
    }
  }

  lemma {:induction false} NormalHasNoBackslash(role: Role, i: string)
    ensures '\\' !in i[..NormalRun(role, i)]
  {
    var n := NormalRun(role, i);
    if n > 0 {
      NormalHasNoBackslash(role, i[1..]);
      assert i[..n] == [i[0]] + i[1..][..n - 1];
    }
  }

  /** One slice comes from one round. */
  lemma OneRound(role: Role, i: string)
    requires |Scan(role, i).0| == 1
    ensures ScanRound(role, i).1 == Scan(role, i).0 && Scan(role, i).1 == i[ScanRound(role, i).0..]
  {
    var (n, slices) := ScanRound(role, i);
    assert n > 0;
    var more := Scan(role, i[n..]).0;
    assert |slices + more| == 1;
    assert more == [] && slices + more == slices;
  }

  lemma NameFaithful(role: Role, i: string)
    requires Name(role, i).Ok?
    ensures IsSuffix(i, Name(role, i).rest)
    ensures Name(role, i).value.SingleSlice? ==> Faithful(Taken(i, Name(role, i).rest), Name(role, i).value.text)
  {
    hide Scan;
    var (slices, rest) := Scan(role, i);
    ScanLeavesSuffix(role, i);
    if |slices| == 1 {
      OneRound(role, i);
      NormalHasNoBackslash(role, i);
      DropIsSuffix(i, ScanRound(role, i).0);
    }
  }

  // ---------------------------------------------------------------------------------------------
  // Tags
  // ---------------------------------------------------------------------------------------------

  predicate Single(t: (EscapedStr, EscapedStr)) {
    t.0.SingleSlice? && t.1.SingleSlice?
  }

  predicate AllSingle(tags: seq<(EscapedStr, EscapedStr)>) {
    forall k :: 0 <= k < |tags| ==> Single(tags[k])
  }

  lemma Separator(i: string, c: char)
    requires StartsWith(i, c)
    ensures IsSuffix(i, i[1..]) && Taken(i, i[1..]) == [c] && (c != '\\' ==> Faithful([c], [c]))
  {
  }

  lemma TagFaithful(i: string)
    requires OneTag(i).Ok?
    ensures IsSuffix(i, OneTag(i).rest)
    ensures var t := OneTag(i).value;
            Single(t) ==> Faithful(Taken(i, OneTag(i).rest), t.0.text + "=" + t.1.text)
  {
    hide Name, Faithful, IsSuffix;
    var key := Name(Key, i);
    var value := Name(TagValue, key.rest[1..]);
    NameFaithful(Key, i);
    NameFaithful(TagValue, key.rest[1..]);
    Separator(key.rest, '=');
    SuffixOfSuffix(i, key.rest, key.rest[1..]);
    SuffixOfSuffix(i, key.rest[1..], value.rest);
    if Single((key.value, value.value)) {
      FaithfulAppend(Taken(i, key.rest), key.value.text, "=", "=");
      FaithfulAppend(Taken(i, key.rest) + "=", key.value.text + "=",
                     Taken(key.rest[1..], value.rest), value.value.text);
    }
  }

  /** The tags read from here on, and the text they were read from. */
  lemma {:induction false} TagsFaithful(i: string, res: seq<(EscapedStr, EscapedStr)>)
    returns (more: seq<(EscapedStr, EscapedStr)>)
    requires ListTail(OneTag, i, res).Ok?
    ensures var r := ListTail(OneTag, i, res);
            && r.value == res + more && IsSuffix(i, r.rest)
            && (AllSingle(more) ==> Faithful(Taken(i, r.rest), PlainTags(TagsMeaning(more))))
    decreases |i|
  {
    hide OneTag, Faithful, IsSuffix;
    var rest := ListTail(OneTag, i, res).rest;
    if StartsWith(i, ',') && OneTag(i[1..]).Ok? {
      var o, j := OneTag(i[1..]).value, OneTag(i[1..]).rest;
      var tail := TagsFaithful(j, res + [o]);
      more := [o] + tail;
      assert res + [o] + tail == res + more;
      Separator(i, ',');
      TagFaithful(i[1..]);
      SuffixOfSuffix(i, i[1..], j);
      SuffixOfSuffix(i, j, rest);
      if AllSingle(more) {
        assert Single(more[0]) && forall k :: 0 <= k < |tail| ==> tail[k] == more[k + 1];
        OneMoreTag(o, tail, Taken(i[1..], j), Taken(j, rest));
      }
    } else {
      more := [];
      assert ListTail(OneTag, i, res) == Ok(i, res) && res + [] == res;
      NothingTaken(i);
    }
  }

  lemma NothingTaken(i: string)
    ensures IsSuffix(i, i) && Taken(i, i) == "" && Faithful("", PlainTags(TagsMeaning([])))
  {
  }

  lemma OneMoreTag(o: (EscapedStr, EscapedStr), tail: seq<(EscapedStr, EscapedStr)>, tag: string, tags: string)
    requires Faithful(tag, o.0.text + "=" + o.1.text) && Faithful(tags, PlainTags(TagsMeaning(tail)))
    ensures Faithful("," + tag + tags, PlainTags(TagsMeaning([o] + tail)))
  {
    hide Faithful;
    var meaning := TagsMeaning([o] + tail);
    assert meaning == [(o.0.text, o.1.text)] + TagsMeaning(tail);
    assert meaning[1..] == TagsMeaning(tail);
    assert PlainTag(meaning[0]) == "," + (o.0.text + "=" + o.1.text);
    Separator(",", ',');
    FaithfulAppend(",", ",", tag, o.0.text + "=" + o.1.text);
    FaithfulAppend("," + tag, PlainTag(meaning[0]), tags, PlainTags(TagsMeaning(tail)));
  }

  // ---------------------------------------------------------------------------------------------
  // Series
  // ---------------------------------------------------------------------------------------------

  /** The raw text of an unescaped series against measurement and tags put together in the order read. */
  lemma SeriesFaithful(i: string)
    requires SeriesOf(i).Ok?
    ensures var s := SeriesOf(i).value;
            !IsEscaped(s) ==>
              if s.tagSet == Some([]) then |s.rawInput| > |BaseWithEscaping(s)|
              else Faithful(s.rawInput, BaseWithEscaping(s))
  {
    hide Name, OneTag, ListTail, Faithful, PlainTags;
    var s := SeriesOf(i).value;
    var m := Name(Measurement, i);
    NameFaithful(Measurement, i);
    if !IsEscaped(s) {
      if s.tagSet.None? {
        NoTagsText(s);
        assert s.rawInput == Taken(i, m.rest);
      } else {
        Separator(m.rest, ',');
        SuffixOfSuffix(i, m.rest, m.rest[1..]);
        TaggedSeriesFaithful(i);
      }
    }
  }

  lemma NoTagsText(s: Series)
    requires s.tagSet.None? || s.tagSet == Some([])
    ensures BaseWithEscaping(s) == s.measurement.text
  {
  }

  lemma FaithfulLength(raw: string, text: string)
    requires Faithful(raw, text)
    ensures |raw| >= |text| && (raw == text <==> '\\' !in raw)
  {
  }

  lemma TaggedSeriesFaithful(i: string)
    requires SeriesOf(i).Ok? && SeriesOf(i).value.tagSet.Some? && !IsEscaped(SeriesOf(i).value)
    ensures var s := SeriesOf(i).value;
            if s.tagSet == Some([]) then |s.rawInput| > |BaseWithEscaping(s)|
            else Faithful(s.rawInput, BaseWithEscaping(s))
  {
    hide Name, OneTag, ListTail, Faithful, PlainTags, IsSuffix;
    var s := SeriesOf(i).value;
    var m := Name(Measurement, i);
    var list := m.rest[1..];
    NameFaithful(Measurement, i);
    Separator(m.rest, ',');
    SuffixOfSuffix(i, m.rest, list);
    if s.tagSet == Some([]) {
      NoTagsText(s);
      FaithfulLength(Taken(i, m.rest), m.value.text);
      EmptyList(list);
      assert s.rawInput == Taken(i, list);
    } else {
      assert OneTag(list).Ok?;
      SuffixOfSuffix(i, m.rest, list);
      var rest := ListIsTail(list);
      assert "," + list == m.rest;
      var more := TagsFaithful(m.rest, []);
      assert [] + more == more;
      SuffixOfSuffix(i, m.rest, rest);
      assert s.rawInput == Taken(i, rest);
      assert AllSingle(more);
      FaithfulAppend(Taken(i, m.rest), m.value.text, Taken(m.rest, rest), PlainTags(TagsMeaning(more)));
    }
  }

  lemma EmptyList(i: string)
    requires SeparatedList(OneTag, i).Ok? && SeparatedList(OneTag, i).value == []
    ensures SeparatedList(OneTag, i).rest == i
  {
    if OneTag(i).Ok? {
      TailKeeps(OneTag(i).rest, [OneTag(i).value]);
    }
  }

  lemma TailKeeps(i: string, res: seq<(EscapedStr, EscapedStr)>)
    requires ListTail(OneTag, i, res).Ok?
    ensures |ListTail(OneTag, i, res).value| >= |res|
  {
    var more := TagsFaithful(i, res);
  }

  lemma ListIsTail(i: string) returns (rest: string)
    requires OneTag(i).Ok? && SeparatedList(OneTag, i).Ok?
    ensures SeparatedList(OneTag, i) == ListTail(OneTag, "," + i, []) && rest == SeparatedList(OneTag, i).rest
  {
    hide OneTag;
    rest := SeparatedList(OneTag, i).rest;
    assert ("," + i)[1..] == i;
    assert [] + [OneTag(i).value] == [OneTag(i).value];
  }

  /** Where the raw text is used, it is the sorted base exactly if it has no backslash and no comma of an empty
      tag set. */
  lemma RawIsSortedIff(i: string)
    requires SeriesOf(i).Ok?
    requires var s := SeriesOf(i).value; !IsEscaped(s) && SortedAndUnique(TagsOf(s))
    ensures var s := SeriesOf(i).value;
            Base(s.rawInput) == SortedBase(s) <==> '\\' !in s.rawInput && s.tagSet != Some([])
  {
    hide SeriesOf, Faithful, Collect, SortedAndUnique;
    var s := SeriesOf(i).value;
    SeriesFaithful(i);
    SortedIsCollected(TagsOf(s));
    if s.tagSet != Some([]) {
      FaithfulLength(s.rawInput, BaseWithEscaping(s));
    }
  }

  /** For every series the parser returns, the base is the sorted one unless the raw text is used although it
      has a backslash or the comma of an empty tag set. */
  lemma BaseIsSortedIff(i: string)
    requires SeriesOf(i).Ok?
    ensures var s := SeriesOf(i).value;
            GenerateBase(s) == SortedBase(s) <==>
              IsEscaped(s) || !SortedAndUnique(TagsOf(s)) || ('\\' !in s.rawInput && s.tagSet != Some([]))
  {
    hide SeriesOf, Collect, SortedAndUnique;
    var s := SeriesOf(i).value;
    if SortedAndUnique(TagsOf(s)) {
      SortedIsCollected(TagsOf(s));
      if !IsEscaped(s) {
        RawIsSortedIff(i);
      }
    }
  }

  /** Series that differ only in the order of their tags have one base, if neither has a backslash or an empty
      tag set. */
  lemma BaseIgnoresOrder(i: string, j: string)
    requires SeriesOf(i).Ok? && SeriesOf(j).Ok?
    requires var s, s' := SeriesOf(i).value, SeriesOf(j).value;
             && '\\' !in s.rawInput && '\\' !in s'.rawInput && s.tagSet != Some([]) && s'.tagSet != Some([])
             && s.measurement.text == s'.measurement.text && multiset(TagsOf(s)) == multiset(TagsOf(s'))
    ensures var s, s' := SeriesOf(i).value, SeriesOf(j).value;
            if KeysDiffer(TagsOf(s)) then GenerateBase(s) == GenerateBase(s') && GenerateBase(s).Base?
            else GenerateBase(s).DuplicateTag? && GenerateBase(s').DuplicateTag?
  {
    hide SeriesOf, Collect, SortedAndUnique, SortedBase, GenerateBase, KeysDiffer;
    var s, s' := SeriesOf(i).value, SeriesOf(j).value;
    BaseIsSortedIff(i);
    BaseIsSortedIff(j);
    SortedBaseIgnoresOrder(s, s');
    SortedBaseIgnoresOrder(s', s);
  }

  /** A name of plain characters, read back as one slice. */
  lemma PlainName(role: Role, s: string, t: string)
    requires s != "" && (forall c <- s :: Normal(role, c)) && EndsName(role, t)
    ensures Name(role, s + t) == Ok(t, SingleSlice(s))
  {
    RunOf(role, s, t);
    var i := s + t;
    assert i[..|s|] == s && i[|s|..] == t;
    assert NormalRun(role, t) == 0 && Scan(role, t) == ([], t);
    assert Scan(role, i) == ([s] + [], t);
    assert '\\' !in s;
  }

  lemma {:induction false} RunOf(role: Role, s: string, t: string)
    requires (forall c <- s :: Normal(role, c)) && EndsName(role, t)
    ensures NormalRun(role, s + t) == |s|
  {
    if s == "" {
      assert s + t == t;
    } else {
      assert (s + t)[1..] == s[1..] + t;
      RunOf(role, s[1..], t);
    }
  }

  /** The same measurement without tags has two bases: a comma with no tag after it stays in the raw text. */
  lemma EmptyTagSetChangesBase()
    ensures var s, s' := SeriesOf("m f=1"), SeriesOf("m, f=1");
            && s.Ok? && s'.Ok? && s.value.measurement == s'.value.measurement
            && TagsOf(s.value) == TagsOf(s'.value) == []
            && GenerateBase(s.value) == Base("m") && GenerateBase(s'.value) == Base("m,")
  {
    hide Name;
    PlainName(Measurement, "m", " f=1");
    PlainName(Measurement, "m", ", f=1");
    assert "m" + " f=1" == "m f=1" && "m" + ", f=1" == "m, f=1";
    assert "m f=1"[..1] == "m" && "m, f=1"[..2] == "m,";
    NoName(Key, " f=1");
    assert ", f=1"[1..] == " f=1";
    var s' := SeriesOf("m, f=1").value;
    assert s' == Series("m,", SingleSlice("m"), Some([]));
  }

  lemma NoName(role: Role, i: string)
    requires i != "" && EndsName(role, i)
    ensures Name(role, i) == Error(Generic)
  {
  }

  /** An escaped delimiter on its own is one slice, so the raw text is used with its backslash. */
  lemma LoneEscapeStaysEscaped()
    ensures var s := SeriesOf("\\, f=1");
            && s.Ok? && s.value.measurement == SingleSlice(",")
            && GenerateBase(s.value) == Base("\\,") && SortedBase(s.value) == Base(",")
  {
    var i := "\\, f=1";
    assert ScanRound(Measurement, i) == (2, [","]);
    assert i[2..] == " f=1" && Scan(Measurement, " f=1") == ([], " f=1");
    assert Scan(Measurement, i) == ([","] + [], " f=1");
    assert i[..2] == "\\,";
    var s := SeriesOf(i).value;
    assert s == Series("\\,", SingleSlice(","), None);
    NoTagsText(s);
    assert Collect([]) == Tags([]);
  }
}
