/** Strings stored back to back, with the offsets at which they end. Lengths count bytes, so a `char` stands
    for one byte here. */
module PackedStrings {
  import opened Basics

  /** Offsets start at zero, do not decrease, and end where the storage ends. */
  predicate Delimits(offsets: seq<nat>, storage: string) {
    && offsets != [] && offsets[0] == 0 && offsets[|offsets| - 1] == |storage|
    && forall j, k :: 0 <= j <= k < |offsets| ==> offsets[j] <= offsets[k]
  }

  /** The strings between successive offsets. */
  function Strings(offsets: seq<nat>, storage: string): (r: seq<string>)
    requires Delimits(offsets, storage)
    ensures |r| == |offsets| - 1
  {
    seq(|offsets| - 1, k requires 0 <= k < |offsets| - 1 => StringAt(offsets, storage, k))
  }

  function StringAt(offsets: seq<nat>, storage: string, k: nat): string
    requires Delimits(offsets, storage) && k < |offsets| - 1
  {
    storage[offsets[k]..offsets[k + 1]]
  }

  function Shifted(offsets: seq<nat>, shift: nat): (r: seq<nat>)
    ensures |r| == |offsets| && forall k :: 0 <= k < |r| ==> r[k] == offsets[k] + shift
  {
    seq(|offsets|, k requires 0 <= k < |offsets| => offsets[k] + shift)
  }

  /** An offset of the joined array comes from the first or from the second one. */
  lemma JoinedOffset(a: seq<nat>, s: string, b: seq<nat>, k: nat)
    requires a != [] && b != [] && b[0] == 0 && a[|a| - 1] == |s| && k < |a| + |b| - 1
    ensures (a + Shifted(b[1..], |s|))[k] == if k < |a| then a[k] else b[k - (|a| - 1)] + |s|
    ensures k >= |a| - 1 ==> (a + Shifted(b[1..], |s|))[k] == b[k - (|a| - 1)] + |s|
  {
  }

  lemma JoinedDelimits(a: seq<nat>, s: string, b: seq<nat>, t: string)
    requires Delimits(a, s) && Delimits(b, t)
    ensures Delimits(a + Shifted(b[1..], |s|), s + t)
  {
    var joined := a + Shifted(b[1..], |s|);
    JoinedOffset(a, s, b, 0);
    JoinedOffset(a, s, b, |joined| - 1);
    forall j, k | 0 <= j <= k < |joined| ensures joined[j] <= joined[k] {
      JoinedOffset(a, s, b, j);
      JoinedOffset(a, s, b, k);
      assert j < |a| ==> a[j] <= a[|a| - 1];
    }
  }

  /** Both storages joined, the second offsets moved and their leading zero dropped. */
  lemma JoinedStrings(a: seq<nat>, s: string, b: seq<nat>, t: string)
    requires Delimits(a, s) && Delimits(b, t)
    ensures var joined := a + Shifted(b[1..], |s|);
            Delimits(joined, s + t) && Strings(joined, s + t) == Strings(a, s) + Strings(b, t)
  {
    var joined := a + Shifted(b[1..], |s|);
    JoinedDelimits(a, s, b, t);
    hide StringAt, Delimits;
    NonEmpty(a, s);
    NonEmpty(b, t);
    forall k | 0 <= k < |joined| - 1 ensures StringAt(joined, s + t, k) == (Strings(a, s) + Strings(b, t))[k] {
      JoinedString(a, s, b, t, k);
    }
  }

  lemma JoinedString(a: seq<nat>, s: string, b: seq<nat>, t: string, k: nat)
    requires Delimits(a, s) && Delimits(b, t) && k < |a| + |b| - 2
    requires Delimits(a + Shifted(b[1..], |s|), s + t)
    ensures StringAt(a + Shifted(b[1..], |s|), s + t, k)
            == if k < |a| - 1 then StringAt(a, s, k) else StringAt(b, t, k - (|a| - 1))
  {
    var joined := a + Shifted(b[1..], |s|);
    if k < |a| - 1 {
      assert joined[k] == a[k] && joined[k + 1] == a[k + 1] && a[k] <= a[k + 1] <= |s|;
      assert (s + t)[a[k]..a[k + 1]] == s[a[k]..a[k + 1]];
    } else {
      var j := k - (|a| - 1);
      assert joined[k] == b[j] + |s| && joined[k + 1] == b[j + 1] + |s| && b[j] <= b[j + 1] <= |t|;
      assert (s + t)[b[j] + |s|..b[j + 1] + |s|] == t[b[j]..b[j + 1]];
    }
  }

  function Rebased(offsets: seq<nat>, start: nat, end: nat): (r: seq<nat>)
    requires start <= end < |offsets|
    requires forall j, k :: 0 <= j <= k < |offsets| ==> offsets[j] <= offsets[k]
    ensures |r| == end + 1 - start && forall k :: 0 <= k < |r| ==> r[k] == offsets[start + k] - offsets[start]
  {
    seq(end + 1 - start, k requires 0 <= k < end + 1 - start => offsets[start + k] - offsets[start])
  }

  lemma PartOfPart(s: string, from: nat, to: nat, i: nat, j: nat)
    requires from <= i <= j <= to <= |s|
    ensures s[from..to][i - from..j - from] == s[i..j]
  {
    var part := s[from..to];
    assert forall k :: 0 <= k < |part| ==> part[k] == s[from + k];
    assert forall k :: 0 <= k < j - i ==> part[i - from..j - from][k] == s[i..j][k];
  }

  /** A range of strings as an array of its own. */
  lemma RangeStrings(offsets: seq<nat>, storage: string, start: nat, end: nat)
    requires Delimits(offsets, storage) && start <= end < |offsets|
    ensures offsets[start] <= offsets[end] <= |storage|
    ensures var part := storage[offsets[start]..offsets[end]];
            && Delimits(Rebased(offsets, start, end), part)
            && Strings(Rebased(offsets, start, end), part) == Strings(offsets, storage)[start..end]
  {
    assert offsets[end] <= offsets[|offsets| - 1];
    var part, rebased := storage[offsets[start]..offsets[end]], Rebased(offsets, start, end);
    forall k | 0 <= k < end - start ensures StringAt(rebased, part, k) == StringAt(offsets, storage, start + k) {
      var i, j := offsets[start + k], offsets[start + k + 1];
      assert offsets[start] <= i <= j <= offsets[end];
      PartOfPart(storage, offsets[start], offsets[end], i, j);
    }
  }

  lemma PrefixStrings(offsets: seq<nat>, storage: string, n: nat)
    requires Delimits(offsets, storage) && n < |offsets|
    ensures offsets[n] <= |storage| && Delimits(offsets[..n + 1], storage[..offsets[n]])
    ensures Strings(offsets[..n + 1], storage[..offsets[n]]) == Strings(offsets, storage)[..n]
  {
    RangeStrings(offsets, storage, 0, n);
    assert Rebased(offsets, 0, n) == offsets[..n + 1];
    assert storage[0..offsets[n]] == storage[..offsets[n]];
  }

  class PackedStringArray {
    var offsets: seq<nat>
    var storage: string

    ghost predicate Valid()
      reads this
    {
      Delimits(offsets, storage)
    }

    ghost function Contents(): seq<string>
      requires Valid()
      reads this
    {
      Strings(offsets, storage)
    }

    constructor ()
      ensures Valid() && Contents() == []
    {
      offsets, storage := [0], "";
    }

    constructor NewEmpty(len: nat)
      ensures Valid() && Contents() == seq(len, _ => "")
    {
      offsets, storage := seq(len + 1, _ => 0), "";
      new;
      assert forall k :: 0 <= k < len ==> StringAt(offsets, storage, k) == "";
    }

    method Append(data: string) returns (id: nat)
      requires Valid()
      modifies this
      ensures Valid() && Contents() == old(Contents()) + [data] && id == |old(Contents())|
    {
      hide Delimits, Strings;
      NonEmpty(offsets, storage);
      id := |offsets| - 1;
      OneString(data);
      JoinedStrings(offsets, storage, [0, |data|], data);
      assert Shifted([0, |data|][1..], |storage|) == [|storage| + |data|];
      offsets := offsets + [|storage| + |data|];
      storage := storage + data;
    }

    method ExtendFrom(other: PackedStringArray)
      requires Valid() && other.Valid() && other != this
      modifies this
      ensures Valid() && Contents() == old(Contents()) + other.Contents()
    {
      hide Strings;
      var offset := |storage|;
      JoinedStrings(offsets, storage, other.offsets, other.storage);
      storage := storage + other.storage;
      offsets := offsets + Shifted(other.offsets[1..], offset);
    }

    /** Moves the offsets of the range so that they go on from the end of the storage. */
    method ExtendFromRange(other: PackedStringArray, start: nat, end: nat)
      requires Valid() && other.Valid() && other != this && start <= end <= |other.Contents()|
      modifies this
      ensures Valid() && Contents() == old(Contents()) + other.Contents()[start..end]
    {
      hide Strings;
      RangeStrings(other.offsets, other.storage, start, end);
      var first, last := other.offsets[start], other.offsets[end];
      var insert := |storage|;
      JoinedStrings(offsets, storage, Rebased(other.offsets, start, end), other.storage[first..last]);
      storage := storage + other.storage[first..last];
      offsets := offsets + Shifted(Rebased(other.offsets, start, end)[1..], insert);
    }

    /** The string at an index, if there is one. */
    function Get(index: nat): (r: Option<string>)
      requires Valid()
      reads this
      ensures r == if index < |Contents()| then Some(Contents()[index]) else None
    {
      if index + 1 < |offsets| then
        assert offsets[index] <= offsets[index + 1] <= offsets[|offsets| - 1];
        Some(storage[offsets[index]..offsets[index + 1]])
      else None
    }

    method Extend(len: nat)
      requires Valid()
      modifies this
      ensures Valid() && Contents() == old(Contents()) + seq(len, _ => "")
    {
      hide Strings;
      var offset := |storage|;
      ghost var empty := seq(len + 1, _ => 0);
      EmptyStrings(len);
      JoinedStrings(offsets, storage, empty, "");
      var padding := seq(len, _ => offset);
      assert Shifted(empty[1..], offset) == padding;
      offsets := offsets + padding;
      assert storage + "" == storage;
    }

    method Truncate(len: nat)
      requires Valid()
      modifies this
      ensures Valid() && Contents() == if len < |old(Contents())| then old(Contents())[..len] else old(Contents())
    {
      hide Strings;
      if len + 1 < |offsets| {
        PrefixStrings(offsets, storage, len);
        offsets := offsets[..len + 1];
      }
      var last := offsets[|offsets| - 1];
      assert last == |storage| ==> storage[..last] == storage;
      storage := if last < |storage| then storage[..last] else storage;
    }

    method Clear()
      requires Valid()
      modifies this
      ensures Valid() && Contents() == []
    {
      offsets := offsets[..1];
      storage := "";
    }
  }

  lemma NonEmpty(offsets: seq<nat>, storage: string)
    requires Delimits(offsets, storage)
    ensures offsets != [] && offsets[|offsets| - 1] == |storage|
  {
  }

  lemma OneString(data: string)
    ensures Delimits([0, |data|], data) && Strings([0, |data|], data) == [data]
  {
    assert StringAt([0, |data|], data, 0) == data;
  }

  lemma EmptyStrings(len: nat)
    ensures var offsets := seq(len + 1, _ => 0);
            Delimits(offsets, "") && Strings(offsets, "") == seq(len, _ => "")
  {
    var offsets := seq(len + 1, _ => 0);
    assert forall k :: 0 <= k < len ==> StringAt(offsets, "", k) == "";
  }
}
