/** The base of a series key: the raw text where that is taken to be canonical, else rebuilt and sorted. */
module SeriesBase {
  import opened LineProtocol
  import opened RoundTrip
  import opened TextOrder

  type Tag = (string, string)

  datatype Base = Base(text: string) | DuplicateTag(key: string)

  // ---------------------------------------------------------------------------------------------
  // Order of keys
  // ---------------------------------------------------------------------------------------------

  predicate StrictlySorted(tags: seq<Tag>) {
    forall j, k :: 0 <= j < k < |tags| ==> Less(tags[j].0, tags[k].0)
  }

  /** Neighbours only, as the source compares them. */
  predicate SortedAndUnique(tags: seq<Tag>) {
    forall k :: 0 <= k < |tags| - 1 ==> Less(tags[k].0, tags[k + 1].0)
  }

  predicate KeysDiffer(tags: seq<Tag>) {
    forall j, k :: 0 <= j < k < |tags| ==> tags[j].0 != tags[k].0
  }

  lemma {:induction false} SortedPair(tags: seq<Tag>, j: nat, k: nat)
    requires SortedAndUnique(tags) && j < k < |tags|
    ensures Less(tags[j].0, tags[k].0)
  {
    if j + 1 < k {
      SortedPair(tags, j, k - 1);
      assert Less(tags[k - 1].0, tags[k - 1 + 1].0);
      LessIsTransitive(tags[j].0, tags[k - 1].0, tags[k].0);
    } else {
      assert Less(tags[j].0, tags[j + 1].0);
    }
  }

  lemma SortedIffNeighbours(tags: seq<Tag>)
    ensures SortedAndUnique(tags) <==> StrictlySorted(tags)
  {
    if SortedAndUnique(tags) {
      forall j, k | 0 <= j < k < |tags| ensures Less(tags[j].0, tags[k].0) {
        SortedPair(tags, j, k);
      }
    }
  }

  // ---------------------------------------------------------------------------------------------
  // Collecting the tags into a map ordered by key
  // ---------------------------------------------------------------------------------------------

  predicate HasKey(tags: seq<Tag>, key: string) {
    exists k :: 0 <= k < |tags| && tags[k].0 == key
  }

  function Insert(sorted: seq<Tag>, tag: Tag): seq<Tag> {
    if sorted == [] || Less(sorted[|sorted| - 1].0, tag.0) then sorted + [tag]
    else Insert(sorted[..|sorted| - 1], tag) + [sorted[|sorted| - 1]]
  }

  datatype Collected = Tags(tags: seq<Tag>) | Duplicate(key: string)

  /** The entries after all of `tags` were put in one by one, or the first key that was there already. */
  function Collect(tags: seq<Tag>): Collected {
    if tags == [] then Tags([])
    else
      var last := tags[|tags| - 1];
      match Collect(tags[..|tags| - 1])
      case Duplicate(key) => Duplicate(key)
      case Tags(sorted) => if HasKey(sorted, last.0) then Duplicate(last.0) else Tags(Insert(sorted, last))
  }

  lemma {:induction false} InsertKeepsTags(sorted: seq<Tag>, tag: Tag)
    ensures multiset(Insert(sorted, tag)) == multiset(sorted) + multiset{tag}
  {
    if sorted != [] {
      assert sorted == sorted[..|sorted| - 1] + [sorted[|sorted| - 1]];
      InsertKeepsTags(sorted[..|sorted| - 1], tag);
    }
  }

  lemma {:induction false} InsertKeepsSorted(sorted: seq<Tag>, tag: Tag)
    requires StrictlySorted(sorted) && !HasKey(sorted, tag.0)
    ensures StrictlySorted(Insert(sorted, tag))
  {
    if sorted == [] {
    } else if Less(sorted[|sorted| - 1].0, tag.0) {
      AppendKeepsSorted(sorted, tag);
    } else {
      var init, last := sorted[..|sorted| - 1], sorted[|sorted| - 1];
      forall k | 0 <= k < |init| ensures init[k].0 != tag.0 {
        assert init[k] == sorted[k];
      }
      assert last.0 != tag.0;
      LessIsTotal(last.0, tag.0);
      InsertKeepsSorted(init, tag);
      InsertKeepsTags(init, tag);
      forall t | t in Insert(init, tag) ensures Less(t.0, last.0) {
        assert t in multiset(Insert(init, tag));
        assert t in init || t == tag;
      }
      AppendSorted(Insert(init, tag), last);
    }
  }

  lemma AppendSorted(sorted: seq<Tag>, tag: Tag)
    requires StrictlySorted(sorted) && forall t <- sorted :: Less(t.0, tag.0)
    ensures StrictlySorted(sorted + [tag])
  {
  }

  lemma AppendKeepsSorted(sorted: seq<Tag>, tag: Tag)
    requires StrictlySorted(sorted) && sorted != [] && Less(sorted[|sorted| - 1].0, tag.0)
    ensures StrictlySorted(sorted + [tag])
  {
    forall k | 0 <= k < |sorted| ensures Less(sorted[k].0, tag.0) {
      if k < |sorted| - 1 {
        LessIsTransitive(sorted[k].0, sorted[|sorted| - 1].0, tag.0);
      }
    }
    AppendSorted(sorted, tag);
  }

  lemma HasKeyByMembers(a: seq<Tag>, b: seq<Tag>, key: string)
    requires multiset(a) == multiset(b)
    ensures HasKey(a, key) <==> HasKey(b, key)
  {
    if HasKey(a, key) {
      var k :| 0 <= k < |a| && a[k].0 == key;
      assert a[k] in multiset(b);
      var l :| 0 <= l < |b| && b[l] == a[k];
    }
    if HasKey(b, key) {
      var k :| 0 <= k < |b| && b[k].0 == key;
      assert b[k] in multiset(a);
      var l :| 0 <= l < |a| && a[l] == b[k];
    }
  }

  lemma KeysDifferAppend(tags: seq<Tag>, tag: Tag)
    ensures KeysDiffer(tags + [tag]) <==> KeysDiffer(tags) && !HasKey(tags, tag.0)
  {
    var all := tags + [tag];
    if KeysDiffer(all) {
      forall j, k | 0 <= j < k < |tags| ensures tags[j].0 != tags[k].0 {
        assert all[j] == tags[j] && all[k] == tags[k];
      }
      forall k | 0 <= k < |tags| ensures tags[k].0 != tag.0 {
        assert all[k] == tags[k] && all[|tags|] == tag;
      }
    }
  }

  /** Collecting succeeds exactly if no key occurs twice; then it sorts, and loses and invents nothing. */
  lemma {:induction false} CollectSorts(tags: seq<Tag>)
    ensures Collect(tags).Tags? <==> KeysDiffer(tags)
    ensures Collect(tags).Tags? ==> StrictlySorted(Collect(tags).tags) && multiset(Collect(tags).tags) == multiset(tags)
    ensures Collect(tags).Duplicate? ==> HasKey(tags, Collect(tags).key)
  {
    hide StrictlySorted, Insert, KeysDiffer;
    if tags == [] {
      NoTags();
    } else {
      var init, last := tags[..|tags| - 1], tags[|tags| - 1];
      assert tags == init + [last];
      CollectSorts(init);
      KeysDifferAppend(init, last);
      if Collect(init).Tags? {
        var sorted := Collect(init).tags;
        HasKeyByMembers(sorted, init, last.0);
        if !HasKey(sorted, last.0) {
          InsertKeepsTags(sorted, last);
          InsertKeepsSorted(sorted, last);
        }
      }
    }
  }

  lemma NoTags()
    ensures StrictlySorted([]) && KeysDiffer([])
  {
  }

  lemma LastIsLargest(a: seq<Tag>, t: Tag)
    requires StrictlySorted(a) && t in a
    ensures t == a[|a| - 1] || Less(t.0, a[|a| - 1].0)
  {
    var k :| 0 <= k < |a| && a[k] == t;
  }

  lemma SameLast(a: seq<Tag>, b: seq<Tag>)
    requires StrictlySorted(a) && StrictlySorted(b) && multiset(a) == multiset(b) && a != [] && b != []
    ensures a[|a| - 1] == b[|b| - 1]
  {
    var x, y := a[|a| - 1], b[|b| - 1];
    assert x in multiset(b) && y in multiset(a);
    LastIsLargest(b, x);
    LastIsLargest(a, y);
    LessIsTotal(x.0, y.0);
  }

  lemma DropLast(a: seq<Tag>)
    requires a != []
    ensures multiset(a[..|a| - 1]) == multiset(a) - multiset{a[|a| - 1]}
    ensures StrictlySorted(a) ==> StrictlySorted(a[..|a| - 1])
  {
    assert a == a[..|a| - 1] + [a[|a| - 1]];
  }

  /** There is only one way to sort a set of tags with distinct keys. */
  lemma {:induction false} SortingIsUnique(a: seq<Tag>, b: seq<Tag>)
    requires StrictlySorted(a) && StrictlySorted(b) && multiset(a) == multiset(b)
    ensures a == b
  {
    hide StrictlySorted;
    assert |a| == |multiset(a)| == |multiset(b)| == |b|;
    if a != [] {
      SameLast(a, b);
      DropLast(a);
      DropLast(b);
      SortingIsUnique(a[..|a| - 1], b[..|b| - 1]);
      assert a == a[..|a| - 1] + [a[|a| - 1]] && b == b[..|b| - 1] + [b[|b| - 1]];
    }
  }

  lemma SortedIsCollected(tags: seq<Tag>)
    requires SortedAndUnique(tags)
    ensures Collect(tags) == Tags(tags)
  {
    SortedIffNeighbours(tags);
    forall j, k | 0 <= j < k < |tags| ensures tags[j].0 != tags[k].0 {
      LessIsTotal(tags[j].0, tags[k].0);
    }
    CollectSorts(tags);
    SortingIsUnique(Collect(tags).tags, tags);
  }

  // ---------------------------------------------------------------------------------------------
  // The base
  // ---------------------------------------------------------------------------------------------

  /** `,key=value` for each tag, nothing escaped. */
  function PlainTags(tags: seq<Tag>): string {
    if tags == [] then "" else PlainTag(tags[0]) + PlainTags(tags[1..])
  }

  function PlainTag(t: Tag): string {
    "," + t.0 + "=" + t.1
  }

  function TagsOf(s: Series): seq<Tag> {
    match s.tagSet
    case None => []
    case Some(tags) => TagsMeaning(tags)
  }

  predicate TagIsEscaped(t: (EscapedStr, EscapedStr)) {
    t.0.CopiedValue? || t.1.CopiedValue?
  }

  predicate IsEscaped(s: Series) {
    || s.measurement.CopiedValue?
    || (s.tagSet.Some? && exists k :: 0 <= k < |s.tagSet.value| && TagIsEscaped(s.tagSet.value[k]))
  }

  function BaseWithEscaping(s: Series): string {
    s.measurement.text + PlainTags(TagsOf(s))
  }

  /** The path that sorts. */
  function SortedBase(s: Series): Base {
    match Collect(TagsOf(s))
    case Duplicate(key) => DuplicateTag(key)
    case Tags(sorted) => Base(s.measurement.text + PlainTags(sorted))
  }

  function GenerateBase(s: Series): Base {
    if SortedAndUnique(TagsOf(s)) then
      if IsEscaped(s) then Base(BaseWithEscaping(s)) else Base(s.rawInput)
    else SortedBase(s)
  }

  lemma {:induction false} PlainTagsAppend(tags: seq<Tag>, t: Tag)
    ensures PlainTags(tags + [t]) == PlainTags(tags) + PlainTag(t)
  {
    hide PlainTag;
    if tags == [] {
      assert tags + [t] == [t] && [t][1..] == [] && PlainTag(t) + "" == PlainTag(t) == "" + PlainTag(t);
    } else {
      assert (tags + [t])[0] == tags[0] && (tags + [t])[1..] == tags[1..] + [t];
      PlainTagsAppend(tags[1..], t);
    }
  }

  /** The sorting path as it runs: fill the ordered map, then write its entries. */
  method SortDeduplicate(s: Series) returns (r: Base)
    ensures r == SortedBase(s)
  {
    hide Insert, HasKey;
    var tags := TagsOf(s);
    var sorted: seq<Tag> := [];
    for i := 0 to |tags|
      invariant Collect(tags[..i]) == Tags(sorted)
    {
      assert tags[..i + 1][..i] == tags[..i] && tags[..i + 1][i] == tags[i];
      if HasKey(sorted, tags[i].0) {
        DuplicateStays(tags, i + 1);
        return DuplicateTag(tags[i].0);
      }
      sorted := Insert(sorted, tags[i]);
    }
    assert tags[..|tags|] == tags;
    var base := s.measurement.text;
    for i := 0 to |sorted|
      invariant base == s.measurement.text + PlainTags(sorted[..i])
    {
      assert sorted[..i + 1] == sorted[..i] + [sorted[i]];
      PlainTagsAppend(sorted[..i], sorted[i]);
      base := base + "," + sorted[i].0 + "=" + sorted[i].1;
    }
    assert sorted[..|sorted|] == sorted;
    r := Base(base);
  }

  lemma {:induction false} DuplicateStays(tags: seq<Tag>, n: nat)
    requires n <= |tags| && Collect(tags[..n]).Duplicate?
    ensures Collect(tags) == Collect(tags[..n])
    decreases |tags|
  {
    if n < |tags| {
      var init := tags[..|tags| - 1];
      assert init[..n] == tags[..n];
      DuplicateStays(init, n);
    } else {
      assert tags[..n] == tags;
    }
  }

  /** The sorting path fails exactly on a repeated key, and does not depend on the order of the tags. */
  lemma SortedBaseIgnoresOrder(s: Series, s': Series)
    requires s.measurement.text == s'.measurement.text && multiset(TagsOf(s)) == multiset(TagsOf(s'))
    ensures SortedBase(s).DuplicateTag? <==> !KeysDiffer(TagsOf(s))
    ensures SortedBase(s).Base? ==> SortedBase(s') == SortedBase(s)
    ensures SortedBase(s).DuplicateTag? ==> SortedBase(s').DuplicateTag?
  {
    var a, b := TagsOf(s), TagsOf(s');
    CollectSorts(a);
    CollectSorts(b);
    KeysDifferIgnoresOrder(a, b);
    if Collect(a).Tags? {
      SortingIsUnique(Collect(a).tags, Collect(b).tags);
    }
  }

  lemma {:induction false} DistinctKeys(tags: seq<Tag>)
    ensures KeysDiffer(tags) <==> |KeysOf(tags)| == |tags|
    ensures |KeysOf(tags)| <= |tags|
  {
    if tags != [] {
      var init, last := tags[..|tags| - 1], tags[|tags| - 1];
      DistinctKeys(init);
      assert tags == init + [last];
      KeysDifferAppend(init, last);
      assert KeysOf(tags) == KeysOf(init) + {last.0};
      assert HasKey(init, last.0) <==> last.0 in KeysOf(init);
    }
  }

  function KeysOf(tags: seq<Tag>): set<string> {
    set t | t in tags :: t.0
  }

  lemma KeysDifferIgnoresOrder(a: seq<Tag>, b: seq<Tag>)
    requires multiset(a) == multiset(b)
    ensures KeysDiffer(a) <==> KeysDiffer(b)
  {
    DistinctKeys(a);
    DistinctKeys(b);
    assert |a| == |multiset(a)| == |multiset(b)| == |b|;
    forall t: Tag ensures t in a <==> t in b {
      assert t in a <==> t in multiset(a);
      assert t in b <==> t in multiset(b);
    }
    assert KeysOf(a) == KeysOf(b);
  }
}
