/** Key-sorted JSON serialisation: objects are written with their keys in
    ascending order, arrays in element order, so that the text of an object
    does not depend on the order its keys were inserted in. How a string is
    quoted is a parameter of the serialisation. */
module StableJson {
  import opened ProjectionTypes

  /** The strict order of string keys used for sorting: compare character
      by character (by code point), a proper prefix first. It agrees with
      `Array.prototype.sort`'s UTF-16 order on keys within the Basic
      Multilingual Plane. */
  predicate KeyBefore(a: string, b: string)
    decreases |a|
  {
    if |a| == 0 then |b| > 0
    else if |b| == 0 then false
    else if a[0] != b[0] then a[0] < b[0]
    else KeyBefore(a[1..], b[1..])
  }

  lemma {:induction false} KeyBeforeIrreflexive(a: string)
    ensures !KeyBefore(a, a)
    decreases |a|
  {
    if |a| > 0 {
      KeyBeforeIrreflexive(a[1..]);
    }
  }

  lemma {:induction false} KeyBeforeTransitive(a: string, b: string, c: string)
    requires KeyBefore(a, b) && KeyBefore(b, c)
    ensures KeyBefore(a, c)
    decreases |a|
  {
    if |a| > 0 && |b| > 0 && |c| > 0 && a[0] == b[0] && b[0] == c[0] {
      KeyBeforeTransitive(a[1..], b[1..], c[1..]);
    }
  }

  lemma {:induction false} KeyBeforeTotal(a: string, b: string)
    requires a != b
    ensures KeyBefore(a, b) || KeyBefore(b, a)
    decreases |a|
  {
    if |a| > 0 && |b| > 0 && a[0] == b[0] {
      assert a == [a[0]] + a[1..] && b == [b[0]] + b[1..];
      KeyBeforeTotal(a[1..], b[1..]);
    }
  }

  /** An object member after its value has been serialised: (key, text). */
  type Entry = (string, string)

  ghost predicate StrictlySorted(s: seq<Entry>) {
    forall i, j :: 0 <= i < j < |s| ==> KeyBefore(s[i].0, s[j].0)
  }

  ghost predicate UniqueEntryKeys(s: seq<Entry>) {
    forall i, j :: 0 <= i < j < |s| ==> s[i].0 != s[j].0
  }

  /** Insertion of one entry into a sorted list. */
  function Insert(e: Entry, s: seq<Entry>): seq<Entry> {
    if |s| == 0 then [e]
    else if KeyBefore(s[0].0, e.0) then [s[0]] + Insert(e, s[1..])
    else [e] + s
  }

  /** `Object.keys(obj).sort()`, carried along with each key's text. */
  function SortEntries(s: seq<Entry>): seq<Entry> {
    if |s| == 0 then [] else Insert(s[0], SortEntries(s[1..]))
  }

  /** Insertion adds exactly the one entry. */
  lemma {:induction false} InsertPermutation(e: Entry, s: seq<Entry>)
    ensures multiset(Insert(e, s)) == multiset(s) + multiset{e}
  {
    if |s| > 0 && KeyBefore(s[0].0, e.0) {
      InsertPermutation(e, s[1..]);
      assert s == [s[0]] + s[1..];
    }
  }

  /** Insertion of a new key into a strictly sorted list keeps it sorted. */
  lemma {:induction false} InsertSorted(e: Entry, s: seq<Entry>)
    requires StrictlySorted(s)
    requires forall i :: 0 <= i < |s| ==> s[i].0 != e.0
    ensures StrictlySorted(Insert(e, s))
  {
    if |s| == 0 {
    } else if KeyBefore(s[0].0, e.0) {
      var rest := Insert(e, s[1..]);
      InsertSorted(e, s[1..]);
      InsertPermutation(e, s[1..]);
      forall j | 0 <= j < |rest|
        ensures KeyBefore(s[0].0, rest[j].0)
      {
        assert rest[j] in multiset(rest);
        if rest[j] != e {
          assert rest[j] in multiset(s[1..]);
          var k :| 0 <= k < |s[1..]| && s[1..][k] == rest[j];
          assert s[k + 1] == rest[j];
        }
      }
      assert Insert(e, s) == [s[0]] + rest;
    } else {
      KeyBeforeTotal(e.0, s[0].0);
      forall j | 0 < j < |s|
        ensures KeyBefore(e.0, s[j].0)
      {
        KeyBeforeTransitive(e.0, s[0].0, s[j].0);
      }
    }
  }

  /** Sorting permutes the entries. */
  lemma {:induction false} SortEntriesPermutation(s: seq<Entry>)
    ensures multiset(SortEntries(s)) == multiset(s)
  {
    if |s| > 0 {
      SortEntriesPermutation(s[1..]);
      InsertPermutation(s[0], SortEntries(s[1..]));
      assert s == [s[0]] + s[1..];
    }
  }

  /** Sorting entries with distinct keys yields a strictly sorted
      permutation of them. */
  lemma {:induction false} SortEntriesSorted(s: seq<Entry>)
    requires UniqueEntryKeys(s)
    ensures StrictlySorted(SortEntries(s))
    ensures multiset(SortEntries(s)) == multiset(s)
  {
    SortEntriesPermutation(s);
    if |s| > 0 {
      var rest := SortEntries(s[1..]);
      SortEntriesSorted(s[1..]);
      forall i | 0 <= i < |rest|
        ensures rest[i].0 != s[0].0
      {
        assert rest[i] in multiset(s[1..]);
        var k :| 0 <= k < |s[1..]| && s[1..][k] == rest[i];
        assert s[k + 1] == rest[i];
      }
      InsertSorted(s[0], rest);
    }
  }

  lemma {:induction false} SortedHeadIsLeast(a: seq<Entry>, x: Entry)
    requires StrictlySorted(a) && |a| > 0 && x in multiset(a) && x != a[0]
    ensures KeyBefore(a[0].0, x.0)
  {
    var k :| 0 <= k < |a| && a[k] == x;
  }

  /** Two strictly sorted lists holding the same entries start alike. */
  lemma SortedHeadsEqual(a: seq<Entry>, b: seq<Entry>)
    requires StrictlySorted(a) && StrictlySorted(b) && multiset(a) == multiset(b) && |a| > 0 && |b| > 0
    ensures a[0] == b[0]
  {
    assert a[0] in multiset(b);
    assert b[0] in multiset(a);
    if a[0] != b[0] {
      SortedHeadIsLeast(b, a[0]);
      SortedHeadIsLeast(a, b[0]);
      KeyBeforeTransitive(a[0].0, b[0].0, a[0].0);
      KeyBeforeIrreflexive(a[0].0);
    }
  }

  lemma TailMultiset(a: seq<Entry>)
    requires |a| > 0
    ensures multiset(a[1..]) == multiset(a) - multiset{a[0]}
  {
    assert a == [a[0]] + a[1..];
  }

  /** Two strictly sorted lists holding the same entries are equal. */
  lemma {:induction false} SortedUnique(a: seq<Entry>, b: seq<Entry>)
    requires StrictlySorted(a) && StrictlySorted(b) && multiset(a) == multiset(b)
    ensures a == b
    decreases |a|
  {
    assert |b| == |multiset(b)| == |multiset(a)| == |a|;
    if |a| > 0 {
      SortedHeadsEqual(a, b);
      TailMultiset(a);
      TailMultiset(b);
      SortedUnique(a[1..], b[1..]);
      assert a == [a[0]] + a[1..] && b == [b[0]] + b[1..];
    }
  }

  /** `stableStringify` */
  function Stringify(j: Json, quote: string -> string): string
    decreases j
  {
    match j
    case JNull => "null"
    case JBool(b) => if b then "true" else "false"
    case JString(s) => quote(s)
    case JArray(items) => "[" + JoinItems(items, quote) + "]"
    case JObject(fields) => "{" + JoinEntries(SortEntries(RenderFields(fields, quote)), quote) + "}"
  }

  /** `items.map(stableStringify).join(",")` */
  function JoinItems(items: seq<Json>, quote: string -> string): string
    decreases items
  {
    if |items| == 0 then ""
    else if |items| == 1 then Stringify(items[0], quote)
    else Stringify(items[0], quote) + "," + JoinItems(items[1..], quote)
  }

  /** Each member's value serialised, member order unchanged. */
  function RenderFields(fields: seq<Field>, quote: string -> string): (r: seq<Entry>)
    decreases fields
    ensures |r| == |fields|
    ensures forall i :: 0 <= i < |fields| ==> r[i].0 == fields[i].key
  {
    if |fields| == 0 then []
    else [(fields[0].key, Stringify(fields[0].value, quote))] + RenderFields(fields[1..], quote)
  }

  /** `entries.join(",")` with each entry written `"key":text`. */
  function JoinEntries(entries: seq<Entry>, quote: string -> string): string {
    if |entries| == 0 then ""
    else if |entries| == 1 then quote(entries[0].0) + ":" + entries[0].1
    else quote(entries[0].0) + ":" + entries[0].1 + "," + JoinEntries(entries[1..], quote)
  }

  /** The members of a run-time object have distinct keys. */
  ghost predicate UniqueFieldKeys(fields: seq<Field>) {
    forall i, j :: 0 <= i < j < |fields| ==> fields[i].key != fields[j].key
  }

  /** Element-wise image of a sequence. */
  function MapSeq<A, B>(s: seq<A>, g: A -> B): (r: seq<B>)
    ensures |r| == |s|
    ensures forall i :: 0 <= i < |s| ==> r[i] == g(s[i])
  {
    if |s| == 0 then [] else [g(s[0])] + MapSeq(s[1..], g)
  }

  lemma {:induction false} MapSeqAppend<A, B>(a: seq<A>, b: seq<A>, g: A -> B)
    ensures MapSeq(a + b, g) == MapSeq(a, g) + MapSeq(b, g)
  {
  }

  /** A sequence is its prefix, the element at `k` and its suffix. */
  lemma SplitAt<A>(s: seq<A>, k: nat)
    requires k < |s|
    ensures s == (s[..k] + [s[k]]) + s[k + 1..]
  {
  }

  /** Removing the element at `k` removes one copy of it. */
  lemma RemoveAtMultiset<A>(s: seq<A>, k: nat)
    requires k < |s|
    ensures multiset(s[..k] + s[k + 1..]) == multiset(s) - multiset{s[k]}
  {
    SplitAt(s, k);
  }

  /** The image loses one copy of `g(s[k])` when `s[k]` is removed. */
  lemma MapSeqRemoveAt<A, B>(s: seq<A>, k: nat, g: A -> B)
    requires k < |s|
    ensures multiset(MapSeq(s, g)) == multiset(MapSeq(s[..k] + s[k + 1..], g)) + multiset{g(s[k])}
  {
    var a, x, b := s[..k], s[k], s[k + 1..];
    SplitAt(s, k);
    MapSeqAppend(a + [x], b, g);
    MapSeqAppend(a, [x], g);
    MapSeqAppend(a, b, g);
    assert MapSeq([x], g) == [g(x)];
  }

  /** The image of a non-empty sequence holds its head's image once more
      than the image of its tail. */
  lemma MapSeqHead<A, B>(s: seq<A>, g: A -> B)
    requires |s| > 0
    ensures multiset(MapSeq(s, g)) == multiset(MapSeq(s[1..], g)) + multiset{g(s[0])}
  {
    assert MapSeq(s, g) == [g(s[0])] + MapSeq(s[1..], g);
  }

  /** The images of two permutations of each other are permutations of
      each other. */
  lemma {:induction false} MapSeqPermutation<A, B>(s1: seq<A>, s2: seq<A>, g: A -> B)
    requires multiset(s1) == multiset(s2)
    ensures multiset(MapSeq(s1, g)) == multiset(MapSeq(s2, g))
    decreases |s1|
  {
    if |s1| == 0 {
      assert |multiset(s2)| == 0;
    } else {
      var x := s1[0];
      assert x in multiset(s2);
      var k :| 0 <= k < |s2| && s2[k] == x;
      var rest2 := s2[..k] + s2[k + 1..];
      assert multiset(s1[1..]) == multiset(rest2) by {
        RemoveAtMultiset(s2, k);
        assert s1 == [x] + s1[1..];
      }
      MapSeqPermutation(s1[1..], rest2, g);
      MapSeqRemoveAt(s2, k, g);
      MapSeqHead(s1, g);
    }
  }

  /** One member's rendering. */
  function EntryOf(quote: string -> string): Field -> Entry {
    (x: Field) => (x.key, Stringify(x.value, quote))
  }

  /** Rendering is the element-wise image under one member's rendering. */
  lemma {:induction false} RenderIsMap(f: seq<Field>, quote: string -> string)
    ensures RenderFields(f, quote) == MapSeq(f, EntryOf(quote))
  {
    if |f| > 0 {
      RenderIsMap(f[1..], quote);
    }
  }

  /** Members in another order render to the same entries in another order. */
  lemma RenderPermutation(f1: seq<Field>, f2: seq<Field>, quote: string -> string)
    requires multiset(f1) == multiset(f2)
    ensures multiset(RenderFields(f1, quote)) == multiset(RenderFields(f2, quote))
  {
    RenderIsMap(f1, quote);
    RenderIsMap(f2, quote);
    MapSeqPermutation(f1, f2, EntryOf(quote));
  }

  /** Objects holding the same members serialise identically whatever the
      order of their keys. */
  lemma KeyOrderIrrelevant(f1: seq<Field>, f2: seq<Field>, quote: string -> string)
    requires UniqueFieldKeys(f1) && UniqueFieldKeys(f2)
    requires multiset(f1) == multiset(f2)
    ensures Stringify(JObject(f1), quote) == Stringify(JObject(f2), quote)
  {
    var r1 := RenderFields(f1, quote);
    var r2 := RenderFields(f2, quote);
    SortEntriesSorted(r1);
    SortEntriesSorted(r2);
    RenderPermutation(f1, f2, quote);
    SortedUnique(SortEntries(r1), SortEntries(r2));
  }

  /** A two-member object is written key-sorted. */
  lemma TwoKeysSorted(quote: string -> string, v: Json, w: Json)
    ensures Stringify(JObject([Field("b", v), Field("a", w)]), quote) ==
            "{" + quote("a") + ":" + Stringify(w, quote) + "," + quote("b") + ":" + Stringify(v, quote) + "}"
  {
    var eb := ("b", Stringify(v, quote));
    var ea := ("a", Stringify(w, quote));
    var fields := [Field("b", v), Field("a", w)];
    assert fields[1..] == [Field("a", w)];
    assert RenderFields(fields, quote) == [eb, ea];
    assert KeyBefore(ea.0, eb.0);
    assert SortEntries([ea]) == [ea];
    assert Insert(eb, [ea]) == [ea] + Insert(eb, []);
    assert SortEntries([eb, ea]) == [ea, eb] by {
      assert [eb, ea][1..] == [ea];
    }
    assert JoinEntries([ea, eb], quote) == quote("a") + ":" + ea.1 + "," + JoinEntries([eb], quote) by {
      assert [ea, eb][1..] == [eb];
    }
  }
}
