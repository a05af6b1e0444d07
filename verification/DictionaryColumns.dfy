/** Rewriting a dictionary column so that its dictionary has no duplicate and no unused entry. */
module DictionaryColumns {
  import opened Basics
  import opened Bytes
  import opened BitSets
  import opened PackedStrings
  import opened Dictionaries
  import opened TextOrder

  /** A row is null or the index of a value. */
  datatype Column = Column(keys: seq<Option<nat>>, values: seq<string>) {
    predicate Valid() {
      forall i :: 0 <= i < |keys| && keys[i].Some? ==> keys[i].value < |values|
    }

    function Decode(i: nat): Option<string>
      requires Valid() && i < |keys|
    {
      match keys[i]
      case None => None
      case Some(k) => Some(values[k])
    }
  }

  predicate Used(c: Column, k: nat) {
    Some(k) in c.keys
  }

  /** The distinct values of the used ones among the first `n` entries, in order. */
  function Collected(c: Column, n: nat): seq<string>
    requires n <= |c.values|
  {
    if n == 0 then []
    else
      var prev := Collected(c, n - 1);
      if Used(c, n - 1) && c.values[n - 1] !in prev then prev + [c.values[n - 1]] else prev
  }

  /** Exactly the used values are collected, each once. */
  lemma {:induction false} CollectedIsExact(c: Column, n: nat)
    requires n <= |c.values|
    ensures NoDuplicates(Collected(c, n))
    ensures forall v :: v in Collected(c, n) <==> exists k :: 0 <= k < n && Used(c, k) && c.values[k] == v
  {
    hide Used;
    if n > 0 {
      CollectedIsExact(c, n - 1);
      var prev, last := Collected(c, n - 1), c.values[n - 1];
      forall v ensures v in Collected(c, n) <==> exists k :: 0 <= k < n && Used(c, k) && c.values[k] == v {
        if v in prev {
          var k :| 0 <= k < n - 1 && Used(c, k) && c.values[k] == v;
        }
      }
    }
  }

  function IndexOf(values: seq<string>, v: string): (k: nat)
    requires v in values
    ensures k < |values| && values[k] == v
  {
    if values[0] == v then 0 else 1 + IndexOf(values[1..], v)
  }

  lemma KeyIsCollected(c: Column, i: nat)
    requires c.Valid() && i < |c.keys| && c.keys[i].Some?
    ensures c.values[c.keys[i].value] in Collected(c, |c.values|)
  {
    CollectedIsExact(c, |c.values|);
    assert c.keys[i] in c.keys && Used(c, c.keys[i].value);
  }

  function NewKey(c: Column, i: nat): Option<nat>
    requires c.Valid() && i < |c.keys|
  {
    match c.keys[i]
    case None => None
    case Some(k) => KeyIsCollected(c, i); Some(IndexOf(Collected(c, |c.values|), c.values[k]))
  }

  /** The column that the rewriting gives. */
  function Optimized(c: Column): Column
    requires c.Valid()
  {
    Column(seq(|c.keys|, i requires 0 <= i < |c.keys| => NewKey(c, i)), Collected(c, |c.values|))
  }

  /** The key data as it is stored: minus one at null rows. */
  function RawKeys(keys: seq<Option<nat>>): seq<int> {
    seq(|keys|, i requires 0 <= i < |keys| => RawKey(keys[i]))
  }

  function RawKey(key: Option<nat>): int {
    match key
    case None => -1
    case Some(k) => k
  }

  lemma IndexIsUnique(values: seq<string>, k: nat)
    requires NoDuplicates(values) && k < |values|
    ensures values[k] in values && IndexOf(values, values[k]) == k
  {
  }

  /** Every row decodes as before, nulls included; the dictionary has no duplicate and no unused entry. */
  lemma OptimizedKeepsRows(c: Column)
    requires c.Valid()
    ensures var o := Optimized(c);
            && o.Valid() && |o.keys| == |c.keys| && (forall i :: 0 <= i < |c.keys| ==> o.Decode(i) == c.Decode(i))
            && NoDuplicates(o.values) && forall k :: 0 <= k < |o.values| ==> Used(o, k)
  {
    var o := Optimized(c);
    CollectedIsExact(c, |c.values|);
    forall d | 0 <= d < |o.values| ensures Used(o, d) {
      assert o.values[d] in o.values;
      var k :| 0 <= k < |c.values| && Used(c, k) && c.values[k] == o.values[d];
      var i :| 0 <= i < |c.keys| && c.keys[i] == Some(k);
      IndexIsUnique(o.values, d);
      assert o.keys[i] == Some(d);
    }
  }

  predicate Ascending(values: seq<string>) {
    forall j, k :: 0 <= j < k < |values| ==> values[j] == values[k] || Less(values[j], values[k])
  }

  predicate StrictlyAscending(values: seq<string>) {
    forall j, k :: 0 <= j < k < |values| ==> Less(values[j], values[k])
  }

  /** A sorted dictionary stays sorted. */
  lemma {:induction false} CollectedStaysSorted(c: Column, n: nat)
    requires n <= |c.values| && Ascending(c.values)
    ensures StrictlyAscending(Collected(c, n))
  {
    hide Less, Used;
    if n > 0 {
      CollectedStaysSorted(c, n - 1);
      CollectedIsExact(c, n - 1);
      var prev, last := Collected(c, n - 1), c.values[n - 1];
      if Used(c, n - 1) && last !in prev {
        forall j | 0 <= j < |prev| ensures Less(prev[j], last) {
          assert prev[j] in prev;
          var k :| 0 <= k < n - 1 && Used(c, k) && c.values[k] == prev[j];
        }
      }
    }
  }

  /** With all entries used and distinct, all are collected. */
  lemma {:induction false} CollectedIsAll(c: Column, n: nat)
    requires n <= |c.values| && NoDuplicates(c.values) && forall k :: 0 <= k < n ==> Used(c, k)
    ensures Collected(c, n) == c.values[..n]
  {
    hide Used;
    if n > 0 {
      CollectedIsAll(c, n - 1);
      assert c.values[n - 1] !in c.values[..n - 1];
    }
  }

  /** Rewriting a second time changes nothing. */
  lemma OptimizedTwice(c: Column)
    requires c.Valid()
    ensures Optimized(c).Valid() && Optimized(Optimized(c)) == Optimized(c)
  {
    OptimizedKeepsRows(c);
    var o := Optimized(c);
    CollectedIsAll(o, |o.values|);
    assert o.values[..|o.values|] == o.values;
    forall i | 0 <= i < |o.keys| ensures NewKey(o, i) == o.keys[i] {
      if o.keys[i].Some? {
        IndexIsUnique(o.values, o.keys[i].value);
      }
    }
  }

  lemma MappedKey(dict: seq<string>, all: seq<string>, key: nat, v: string)
    requires NoDuplicates(all) && |dict| <= |all| && dict == all[..|dict|] && key < |dict| && dict[key] == v
    ensures v in all && IndexOf(all, v) == key
  {
    IndexIsUnique(all, key);
  }

  lemma {:induction false} CollectedGrows(c: Column, n: nat, m: nat)
    requires n <= m <= |c.values|
    ensures |Collected(c, n)| <= |Collected(c, m)| && Collected(c, n) == Collected(c, m)[..|Collected(c, n)|]
    decreases m - n
  {
    hide Used;
    if n < m {
      CollectedGrows(c, n, m - 1);
    }
  }

  /** First pass: the keys that occur. */
  method UsedKeys(keys: seq<Option<nat>>) returns (used: set<nat>)
    ensures forall k :: k in used <==> Some(k) in keys
  {
    used := {};
    for i := 0 to |keys|
      invariant forall k :: k in used <==> Some(k) in keys[..i]
    {
      if keys[i].Some? {
        used := used + {keys[i].value};
      }
    }
    assert keys[..|keys|] == keys;
  }

  /** What the map from old to new keys must hold once the entries below `n` are through. */
  ghost predicate MapsKeys(c: Column, n: nat, oldToNew: map<nat, nat>)
    requires n <= |c.values|
  {
    && (forall k :: k in oldToNew <==> 0 <= k < n && Used(c, k))
    && forall k :: k in oldToNew ==> MapsKey(c, k, oldToNew[k])
  }

  ghost predicate MapsKey(c: Column, k: nat, newKey: nat)
    requires k < |c.values|
  {
    var all := Collected(c, |c.values|);
    c.values[k] in all && newKey == IndexOf(all, c.values[k])
  }

  lemma NothingMapped(c: Column)
    ensures MapsKeys(c, 0, map[])
  {
  }

  lemma KeyIsSkipped(c: Column, key: nat, oldToNew: map<nat, nat>)
    requires key < |c.values| && MapsKeys(c, key, oldToNew) && !Used(c, key)
    ensures MapsKeys(c, key + 1, oldToNew) && Collected(c, key + 1) == Collected(c, key)
  {
    hide Used, MapsKey;
  }

  lemma NewKeyIsRight(c: Column, key: nat, newKey: nat)
    requires key < |c.values|
    requires newKey < |Collected(c, key + 1)| && Collected(c, key + 1)[newKey] == c.values[key]
    ensures MapsKey(c, key, newKey)
  {
    hide Used, Collected, IndexOf;
    CollectedGrows(c, key + 1, |c.values|);
    CollectedIsExact(c, |c.values|);
    MappedKey(Collected(c, key + 1), Collected(c, |c.values|), newKey, c.values[key]);
  }

  lemma KeyIsMapped(c: Column, key: nat, newKey: nat, oldToNew: map<nat, nat>)
    requires key < |c.values| && MapsKeys(c, key, oldToNew) && Used(c, key)
    requires newKey < |Collected(c, key + 1)| && Collected(c, key + 1)[newKey] == c.values[key]
    ensures MapsKeys(c, key + 1, oldToNew[key := newKey])
  {
    hide Used, Collected, MapsKey;
    NewKeyIsRight(c, key, newKey);
  }

  /** Second pass, in ascending order of the used keys: the new dictionary and where each key went. */
  method Deduplicate(c: Column, used: set<nat>, hash: string -> int)
    returns (dictionary: StringDictionary, oldToNew: map<nat, nat>)
    requires forall k :: k in used <==> Used(c, k)
    ensures dictionary.Valid() && dictionary.Contents() == Collected(c, |c.values|)
    ensures MapsKeys(c, |c.values|, oldToNew)
  {
    hide Used, MapsKeys, Indexes, NoDuplicates, Strings, Delimits;
    dictionary := new StringDictionary(hash);
    oldToNew := map[];
    NothingMapped(c);
    for key := 0 to |c.values|
      invariant fresh(dictionary) && fresh(dictionary.storage) && dictionary.Valid()
                && dictionary.Contents() == Collected(c, key)
      invariant MapsKeys(c, key, oldToNew)
    {
      if key in used {
        var newKey := dictionary.LookupValueOrInsert(c.values[key]);
        KeyIsMapped(c, key, newKey, oldToNew);
        oldToNew := oldToNew[key := newKey];
      } else {
        KeyIsSkipped(c, key, oldToNew);
      }
    }
  }

  /** Third pass: the new key of every row, minus one where it is null. */
  method RemapKeys(c: Column, oldToNew: map<nat, nat>) returns (newKeys: seq<int>)
    requires c.Valid() && MapsKeys(c, |c.values|, oldToNew)
    ensures newKeys == RawKeys(Optimized(c).keys)
  {
    hide Collected, IndexOf;
    newKeys := [];
    for i := 0 to |c.keys|
      invariant |newKeys| == i && forall j :: 0 <= j < i ==> newKeys[j] == RawKey(NewKey(c, j))
    {
      match c.keys[i]
      case None => newKeys := newKeys + [-1];
      case Some(k) =>
        assert c.keys[i] in c.keys && Used(c, k) && MapsKey(c, k, oldToNew[k]);
        newKeys := newKeys + [oldToNew[k]];
    }
  }

  // ---------------------------------------------------------------------------------------------
  // Key arrays with validity bits
  // ---------------------------------------------------------------------------------------------

  datatype DataType = Int32 | Utf8 | Other(name: string)

  /** A slice of key data with an optional bitmap, both seen from an offset on; an unset bit makes a row null. */
  datatype KeyArray = KeyArray(data: seq<int>, nulls: Option<seq<Byte>>, offset: nat, len: nat) {
    predicate Valid() {
      offset + len <= |data| && (nulls.Some? ==> offset + len <= 8 * |nulls.value|)
    }

    predicate IsNull(i: nat)
      requires Valid() && i < len
    {
      nulls.Some? && !BitAt(nulls.value, offset + i)
    }

    predicate KeysFit(n: nat)
      requires Valid()
    {
      forall i :: 0 <= i < len && !IsNull(i) ==> 0 <= data[offset + i] < n
    }

    function Key(i: nat, n: nat): Option<nat>
      requires Valid() && KeysFit(n) && i < len
    {
      if IsNull(i) then None else Some(data[offset + i])
    }

    /** The rows, as iterating over the array gives them. */
    function Keys(n: nat): (r: seq<Option<nat>>)
      requires Valid() && KeysFit(n)
      ensures |r| == len && forall i :: 0 <= i < len ==> r[i] == Key(i, n)
    {
      seq(len, i requires 0 <= i < len => Key(i, n))
    }
  }

  /** The bits from `offset` on: the bytes themselves if they are aligned, else a packed copy. */
  function BitSlice(bytes: seq<Byte>, offset: nat, len: nat): seq<Byte>
    requires offset + len <= 8 * |bytes|
  {
    if offset % 8 == 0 then bytes[offset / 8..] else Pack(AllBits(bytes)[offset..offset + len])
  }

  lemma BitSliceBits(bytes: seq<Byte>, offset: nat, len: nat, i: nat)
    requires offset + len <= 8 * |bytes| && i < len
    ensures len <= 8 * |BitSlice(bytes, offset, len)|
    ensures BitAt(BitSlice(bytes, offset, len), i) == BitAt(bytes, offset + i)
  {
    hide Bit;
    if offset % 8 == 0 {
      assert (offset + i) / 8 == offset / 8 + i / 8 && (offset + i) % 8 == i % 8;
    } else {
      hide BitAt, Pack;
      PackPacks(AllBits(bytes)[offset..offset + len]);
    }
  }

  /** Raw keys under a sliced bitmap are the keys they came from. */
  lemma KeysComeBack(a: KeyArray, n: nat, keys: seq<Option<nat>>, m: nat)
    requires a.Valid() && a.KeysFit(n) && |keys| == a.len
    requires forall i :: 0 <= i < a.len ==> (keys[i].None? <==> a.IsNull(i)) && (keys[i].Some? ==> keys[i].value < m)
    ensures var nulls := if a.nulls.None? then None else Some(BitSlice(a.nulls.value, a.offset, a.len));
            var b := KeyArray(RawKeys(keys), nulls, 0, a.len);
            b.Valid() && b.KeysFit(m) && b.Keys(m) == keys
  {
    hide BitSlice, BitAt;
    var nulls := if a.nulls.None? then None else Some(BitSlice(a.nulls.value, a.offset, a.len));
    var b := KeyArray(RawKeys(keys), nulls, 0, a.len);
    if nulls.Some? && a.len > 0 {
      BitSliceBits(a.nulls.value, a.offset, a.len, 0);
    }
    assert b.Valid();
    forall i | 0 <= i < a.len ensures b.IsNull(i) <==> keys[i].None? {
      if nulls.Some? {
        BitSliceBits(a.nulls.value, a.offset, a.len, i);
      }
    }
    assert b.KeysFit(m);
  }

  datatype OptimizeResult = Rewritten(keys: KeyArray, dictionary: StringDictionary) | NotYetImplemented(found: DataType)

  /** The rewriting as it runs: only strings under 32-bit keys are rewritten; the validity bits are copied. */
  method OptimizeDictCol(keyType: DataType, valueType: DataType, keys: KeyArray, values: seq<string>,
                         hash: string -> int)
    returns (r: OptimizeResult)
    requires keys.Valid() && keys.KeysFit(|values|)
    ensures keyType != Int32 ==> r == NotYetImplemented(keyType)
    ensures keyType == Int32 && valueType != Utf8 ==> r == NotYetImplemented(valueType)
    ensures keyType == Int32 && valueType == Utf8 ==>
              && r.Rewritten? && r.dictionary.Valid() && r.keys.Valid() && r.keys.KeysFit(|r.dictionary.Contents()|)
              && Column(keys.Keys(|values|), values).Valid()
              && Column(r.keys.Keys(|r.dictionary.Contents()|), r.dictionary.Contents())
                 == Optimized(Column(keys.Keys(|values|), values))
              && (r.keys.nulls.Some? <==> keys.nulls.Some?)
  {
    if keyType != Int32 {
      return NotYetImplemented(keyType);
    }
    if valueType != Utf8 {
      return NotYetImplemented(valueType);
    }
    hide Collected, RawKeys, MapsKeys, BitAt, BitSlice;
    var c := Column(keys.Keys(|values|), values);
    var used := UsedKeys(c.keys);
    var dictionary, oldToNew := Deduplicate(c, used, hash);
    var newKeys := RemapKeys(c, oldToNew);
    var nulls := if keys.nulls.None? then None else Some(BitSlice(keys.nulls.value, keys.offset, keys.len));
    NullsStay(c);
    KeysComeBack(keys, |values|, Optimized(c).keys, |Collected(c, |c.values|)|);
    r := Rewritten(KeyArray(newKeys, nulls, 0, keys.len), dictionary);
  }

  lemma NullsStay(c: Column)
    requires c.Valid()
    ensures |Optimized(c).keys| == |c.keys|
    ensures forall i :: 0 <= i < |c.keys| ==>
              && (Optimized(c).keys[i].None? <==> c.keys[i].None?)
              && (Optimized(c).keys[i].Some? ==> Optimized(c).keys[i].value < |Collected(c, |c.values|)|)
  {
    hide Collected, IndexOf;
  }
}
