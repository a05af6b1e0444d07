/** The interning dictionary: packed strings and a hash table of their indexes. */
module Dictionaries {
  import opened Basics
  import opened PackedStrings

  /** The hash table: every index is filed under a hash. */
  type Table = map<nat, int>

  /** The table has exactly the first `n` indexes, each under the hash of its string. */
  ghost predicate Indexes(table: Table, hash: string -> int, values: seq<string>, n: nat) {
    && n <= |values|
    && (forall k :: k in table <==> 0 <= k < n)
    && forall k :: 0 <= k < n ==> table[k] == hash(values[k])
  }

  datatype TryFromError = DuplicateKeyFound(key: string)
  datatype TryFromResult = Ok(dictionary: StringDictionary) | Err(error: TryFromError)

  /** What a probe finds: an index filed under the hash whose string is the value. */
  method Find(table: Table, hash: string -> int, storage: PackedStringArray, value: string, ghost n: nat)
    returns (r: Option<nat>)
    requires storage.Valid() && Indexes(table, hash, storage.Contents(), n)
    ensures r.Some? ==> r.value < n && storage.Contents()[r.value] == value
    ensures r.None? ==> value !in storage.Contents()[..n]
  {
    var h := hash(value);
    if k :| k in table && table[k] == h && storage.Get(k) == Some(value) {
      return Some(k);
    }
    forall k | 0 <= k < n ensures storage.Contents()[..n][k] != value {
      assert k in table;
      assert storage.Contents()[k] == value ==> storage.Get(k) == Some(value);
    }
    return None;
  }

  /** Files one more index. Growing the table files all the others anew. */
  method File(table: Table, hash: string -> int, storage: PackedStringArray, key: nat) returns (r: Table)
    requires storage.Valid() && key < |storage.Contents()| && Indexes(table, hash, storage.Contents(), key)
    ensures Indexes(r, hash, storage.Contents(), key + 1)
  {
    r := table;
    if * {
      r := map k | k in table :: hash(storage.Get(k).value);
    }
    r := r[key := hash(storage.Get(key).value)];
  }

  class StringDictionary {
    const hash: string -> int
    var dedup: Table
    var storage: PackedStringArray

    /** The table finds every string, and no string is there twice. */
    ghost predicate Valid()
      reads this, storage
    {
      && storage.Valid()
      && Indexes(dedup, hash, storage.Contents(), |storage.Contents()|)
      && NoDuplicates(storage.Contents())
    }

    ghost function Contents(): seq<string>
      requires Valid()
      reads this, storage
    {
      storage.Contents()
    }

    constructor (hash: string -> int)
      ensures Valid() && fresh(storage) && this.hash == hash && Contents() == []
    {
      this.hash := hash;
      dedup := map[];
      storage := new PackedStringArray();
    }

    constructor FromParts(hash: string -> int, dedup: Table, storage: PackedStringArray)
      ensures this.hash == hash && this.dedup == dedup && this.storage == storage
    {
      this.hash, this.dedup, this.storage := hash, dedup, storage;
    }

    method LookupValueOrInsert(value: string) returns (key: nat)
      requires Valid()
      modifies this, storage
      ensures Valid() && storage == old(storage)
      ensures Contents() == if value in old(Contents()) then old(Contents()) else old(Contents()) + [value]
      ensures key < |Contents()| && Contents()[key] == value
    {
      ghost var n := |storage.Contents()|;
      assert storage.Contents()[..n] == storage.Contents();
      var entry := Find(dedup, hash, storage, value, n);
      match entry
      case Some(k) => key := k;
      case None =>
        key := storage.Append(value);
        dedup := File(dedup, hash, storage, key);
    }

    /** The index of the value if it is there, and of no other. */
    method LookupValue(value: string) returns (r: Option<nat>)
      requires Valid()
      ensures forall k :: 0 <= k < |Contents()| ==> (r == Some(k) <==> Contents()[k] == value)
      ensures r.None? <==> value !in Contents()
    {
      ghost var n := |storage.Contents()|;
      assert storage.Contents()[..n] == storage.Contents();
      r := Find(dedup, hash, storage, value, n);
    }

    function LookupId(id: nat): (r: Option<string>)
      requires Valid()
      reads this, storage
      ensures forall v :: r == Some(v) <==> id < |Contents()| && Contents()[id] == v
    {
      storage.Get(id)
    }

    /** Removes all keys larger than `id`. */
    method Truncate(id: nat)
      requires Valid()
      modifies this, storage
      ensures Valid() && storage == old(storage)
      ensures Contents() == if id + 1 < |old(Contents())| then old(Contents())[..id + 1] else old(Contents())
    {
      hide Strings, Delimits;
      ghost var values := storage.Contents();
      dedup := map k | k in dedup && k <= id :: dedup[k];
      storage.Truncate(id + 1);
      FewerValues(values, |storage.Contents()|);
    }

    method Clear()
      requires Valid()
      modifies this, storage
      ensures Valid() && storage == old(storage) && Contents() == []
    {
      storage.Clear();
      dedup := map[];
    }
  }

  lemma FewerValues(values: seq<string>, n: nat)
    requires NoDuplicates(values) && n <= |values|
    ensures NoDuplicates(values[..n])
  {
  }

  /** Succeeds exactly if there is no duplicate, and then keeps the strings as they are. */
  method TryFrom(hash: string -> int, storage: PackedStringArray) returns (r: TryFromResult)
    requires storage.Valid()
    ensures r.Ok? <==> NoDuplicates(storage.Contents())
    ensures r.Ok? ==> r.dictionary.Valid() && r.dictionary.storage == storage && r.dictionary.hash == hash
    ensures r.Err? ==>
              exists j, k :: 0 <= j < k < |storage.Contents()|
                  && storage.Contents()[j] == storage.Contents()[k] == r.error.key
  {
    var dedup: Table := map[];
    ghost var values := storage.Contents();
    var len := |storage.offsets| - 1;
    for idx := 0 to len
      invariant Indexes(dedup, hash, values, idx) && NoDuplicates(values[..idx])
    {
      var value := storage.Get(idx).value;
      var entry := Find(dedup, hash, storage, value, idx);
      if entry.Some? {
        assert values[entry.value] == values[idx];
        return Err(DuplicateKeyFound(value));
      }
      assert forall k :: 0 <= k < idx ==> values[..idx][k] == values[k];
      dedup := File(dedup, hash, storage, idx);
    }
    assert values[..len] == values;
    var dictionary := new StringDictionary.FromParts(hash, dedup, storage);
    return Ok(dictionary);
  }

  // ---------------------------------------------------------------------------------------------
  // Runs
  // ---------------------------------------------------------------------------------------------

  datatype Op = Insert(value: string) | Truncate(id: nat) | Clear

  /** What one call does to the contents. */
  function Apply(values: seq<string>, op: Op): seq<string> {
    match op
    case Insert(value) => if value in values then values else values + [value]
    case Truncate(id) => if id + 1 < |values| then values[..id + 1] else values
    case Clear => []
  }

  function Run(values: seq<string>, ops: seq<Op>): seq<string>
    decreases |ops|
  {
    if ops == [] then values else Run(Apply(values, ops[0]), ops[1..])
  }

  /** No call of the run removes the entry `k`. */
  predicate Keeps(k: nat, ops: seq<Op>) {
    forall op <- ops :: !op.Clear? && (op.Truncate? ==> k <= op.id)
  }

  /** Over any run of calls the values stay distinct, and an id keeps its value until it is removed. */
  lemma {:induction false} RunKeepsDictionary(values: seq<string>, ops: seq<Op>, k: nat)
    requires NoDuplicates(values)
    ensures NoDuplicates(Run(values, ops))
    ensures k < |values| && Keeps(k, ops) ==> k < |Run(values, ops)| && Run(values, ops)[k] == values[k]
    decreases |ops|
  {
    if ops != [] {
      assert ops[0] in ops;
      RunKeepsDictionary(Apply(values, ops[0]), ops[1..], k);
    }
  }

  method RunOp(d: StringDictionary, op: Op)
    requires d.Valid()
    modifies d, d.storage
    ensures d.Valid() && d.storage == old(d.storage) && d.Contents() == Apply(old(d.Contents()), op)
  {
    hide Indexes, NoDuplicates, Strings, Delimits;
    match op
    case Insert(value) => var _ := d.LookupValueOrInsert(value);
    case Truncate(id) => d.Truncate(id);
    case Clear => d.Clear();
  }

  /** The calls of a run, made one after the other. */
  method RunOps(d: StringDictionary, ops: seq<Op>)
    requires d.Valid()
    modifies d, d.storage
    ensures d.Valid() && d.storage == old(d.storage) && d.Contents() == Run(old(d.Contents()), ops)
  {
    hide Indexes, NoDuplicates, Strings, Delimits;
    assert ops[0..] == ops;
    for i := 0 to |ops|
      invariant d.Valid() && d.storage == old(d.storage)
      invariant Run(old(d.Contents()), ops) == Run(d.Contents(), ops[i..])
    {
      assert ops[i..][1..] == ops[i + 1..];
      RunOp(d, ops[i]);
    }
    assert ops[|ops|..] == [];
  }
}
