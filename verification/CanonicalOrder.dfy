/** When the canonical text is independent of key order, and what equal texts then amount to. */
module CanonicalOrder {
  import opened Permutations
  import opened Sorting
  import opened Canonical
  import opened CanonicalUnambiguous

  lemma PrecedesOneWay<T>(s: seq<T>, x: T, y: T)
    requires Distinct(s) && Precedes(s, x, y)
    ensures !Precedes(s, y, x)
  {
  }

  // ---------------------------------------------------------------- meanings and texts

  /** The comparison is a total order: keys that differ never tie. */
  ghost predicate TotalOrder(leq: KeyOrder) {
    TotalPreorder(leq) && forall k, l :: leq(k, l) && leq(l, k) ==> k == l
  }

  lemma FieldsDistinct(leq: KeyOrder, entries: seq<Entry>)
    requires UniqueKeys(entries)
    ensures Distinct(Fields(leq, entries))
    ensures forall f, g :: f in Fields(leq, entries) && g in Fields(leq, entries) && f.key == g.key ==> f == g
  {
    var fields := Fields(leq, entries);
    assert forall i :: 0 <= i < |fields| ==> fields[i].key == entries[i].key;
  }

  lemma ByKeyPreorder(leq: KeyOrder)
    requires TotalPreorder(leq)
    ensures TotalPreorder(ByKey(leq))
  {
    var order := ByKey(leq);
    forall x, y ensures order(x, y) || order(y, x) {
      assert leq(x.key, y.key) || leq(y.key, x.key);
    }
    forall x, y, z | order(x, y) && order(y, z) ensures order(x, z) {
      assert leq(x.key, y.key) && leq(y.key, z.key);
    }
  }

  lemma MeaningDeterminesText(leq: KeyOrder, a: Json, b: Json)
    requires TotalOrder(leq) && WellFormed(a) && WellFormed(b) && Meaning(a) == Meaning(b)
    ensures Canon(leq, a) == Canon(leq, b)
    decreases a
  {
    if a.Arr? {
      var left, right := Meaning(a).items, Meaning(b).items;
      assert |left| == |a.items| && |right| == |b.items|;
      forall i | 0 <= i < |a.items| ensures Canon(leq, a.items[i]) == Canon(leq, b.items[i]) {
        assert left[i] == right[i];
        MeaningDeterminesText(leq, a.items[i], b.items[i]);
      }
      CanonArr(leq, a.items);
      CanonArr(leq, b.items);
      assert ItemTexts(leq, a.items) == ItemTexts(leq, b.items);
    } else if a.Obj? {
      MeaningObj(a.entries);
      MeaningObj(b.entries);
      ObjectText(leq, a, b);
    }
  }

  lemma ObjectText(leq: KeyOrder, a: Json, b: Json)
    requires TotalOrder(leq) && WellFormed(a) && WellFormed(b) && a.Obj? && b.Obj?
    requires Members(a.entries) == Members(b.entries)
    ensures Canon(leq, a) == Canon(leq, b)
    decreases a, 0
  {
    var left, right := Fields(leq, a.entries), Fields(leq, b.entries);
    forall i | 0 <= i < |left| ensures left[i] in right {
      assert Member(a.entries[i].key, Meaning(a.entries[i].value)) in Members(b.entries);
      var j :| 0 <= j < |b.entries| && b.entries[j].key == a.entries[i].key &&
        Meaning(b.entries[j].value) == Meaning(a.entries[i].value);
      MeaningDeterminesText(leq, a.entries[i].value, b.entries[j].value);
      assert right[j] == left[i];
    }
    forall j | 0 <= j < |right| ensures right[j] in left {
      assert Member(b.entries[j].key, Meaning(b.entries[j].value)) in Members(a.entries);
      var i :| 0 <= i < |a.entries| && a.entries[i].key == b.entries[j].key &&
        Meaning(a.entries[i].value) == Meaning(b.entries[j].value);
      MeaningDeterminesText(leq, a.entries[i].value, b.entries[j].value);
      assert left[i] == right[j];
    }
    SameFieldsSameText(leq, a.entries, b.entries);
  }

  lemma SameFieldsSameText(leq: KeyOrder, a: seq<Entry>, b: seq<Entry>)
    requires TotalPreorder(leq) && UniqueKeys(a) && UniqueKeys(b) && NoKeyTies(leq, a)
    requires forall f :: f in Fields(leq, a) <==> f in Fields(leq, b)
    ensures Canon(leq, Obj(a)) == Canon(leq, Obj(b))
  {
    FieldsDistinct(leq, a);
    FieldsDistinct(leq, b);
    DistinctPermutation(Fields(leq, a), Fields(leq, b));
    ByKeyPreorder(leq);
    FieldsNoTies(leq, a);
    SortCanonical(ByKey(leq), Fields(leq, a), Fields(leq, b));
    CanonObj(leq, a);
    CanonObj(leq, b);
  }

  /** With a total order of keys, texts are equal exactly when the values are, up to key order. */
  lemma SameTextIffSameMeaning(leq: KeyOrder, a: Json, b: Json)
    requires TotalOrder(leq) && WellFormed(a) && WellFormed(b)
    ensures Canon(leq, a) == Canon(leq, b) <==> Meaning(a) == Meaning(b)
  {
    if Canon(leq, a) == Canon(leq, b) {
      TextDeterminesMeaning(leq, a, b);
    }
    if Meaning(a) == Meaning(b) {
      MeaningDeterminesText(leq, a, b);
    }
  }

  // ---------------------------------------------------------------- key order

  /** No two keys of the object compare as equal. */
  ghost predicate NoKeyTies(leq: KeyOrder, entries: seq<Entry>) {
    forall i, j :: 0 <= i < j < |entries| ==> !(leq(entries[i].key, entries[j].key) && leq(entries[j].key, entries[i].key))
  }

  lemma FieldsNoTies(leq: KeyOrder, entries: seq<Entry>)
    requires UniqueKeys(entries) && NoKeyTies(leq, entries)
    ensures NoTies(ByKey(leq), Fields(leq, entries))
  {
    var fields := Fields(leq, entries);
    assert forall i :: 0 <= i < |fields| ==> fields[i].key == entries[i].key;
  }

  lemma EntriesDistinct(entries: seq<Entry>)
    requires UniqueKeys(entries)
    ensures Distinct(entries)
  {
  }

  lemma ReorderedFields(leq: KeyOrder, a: seq<Entry>, b: seq<Entry>)
    requires UniqueKeys(a) && multiset(a) == multiset(b)
    ensures UniqueKeys(b) && forall f :: f in Fields(leq, a) <==> f in Fields(leq, b)
  {
    EntriesDistinct(a);
    PermutationDistinct(a, b);
    forall i, j | 0 <= i < j < |b| ensures b[i].key != b[j].key {
      assert b[i] in a && b[j] in a && b[i] != b[j];
    }
    forall f ensures f in Fields(leq, a) <==> f in Fields(leq, b) {
      FieldsSubset(leq, a, b, f);
      FieldsSubset(leq, b, a, f);
    }
  }

  lemma FieldsSubset(leq: KeyOrder, a: seq<Entry>, b: seq<Entry>, f: Field)
    requires forall e :: e in a ==> e in b
    ensures f in Fields(leq, a) ==> f in Fields(leq, b)
  {
    if f in Fields(leq, a) {
      var i :| 0 <= i < |a| && Fields(leq, a)[i] == f;
      assert a[i] in b;
      var j :| 0 <= j < |b| && b[j] == a[i];
      assert Fields(leq, b)[j] == f;
    }
  }

  function Swapped(entries: seq<Entry>, i: nat, j: nat): seq<Entry>
    requires i < j < |entries|
  {
    entries[i := entries[j]][j := entries[i]]
  }

  /** Two keys that tie keep their input order, so swapping them changes the text. */
  lemma TieShows(leq: KeyOrder, entries: seq<Entry>, i: nat, j: nat)
    requires TotalPreorder(leq) && WellFormed(Obj(entries)) && i < j < |entries|
    requires leq(entries[i].key, entries[j].key) && leq(entries[j].key, entries[i].key)
    ensures multiset(Swapped(entries, i, j)) == multiset(entries)
    ensures Canon(leq, Obj(Swapped(entries, i, j))) != Canon(leq, Obj(entries))
  {
    hide Canon;
    var other := Swapped(entries, i, j);
    var f, g := Fields(leq, entries)[i], Fields(leq, entries)[j];
    ReorderedFields(leq, entries, other);
    assert WellFormed(Obj(other));
    ByKeyPreorder(leq);
    SortStable(ByKey(leq), Fields(leq, entries), i, j);
    assert Fields(leq, other)[i] == g && Fields(leq, other)[j] == f;
    SortStable(ByKey(leq), Fields(leq, other), i, j);
    FieldsDistinct(leq, entries);
    SortMultiset(ByKey(leq), Fields(leq, entries));
    PermutationDistinct(Fields(leq, entries), ObjectFields(leq, Obj(entries)));
    PrecedesOneWay(ObjectFields(leq, Obj(entries)), f, g);
    if Canon(leq, Obj(other)) == Canon(leq, Obj(entries)) {
      SameTextSameFields(leq, Obj(other), Obj(entries));
    }
  }

  lemma SameTextSameFields(leq: KeyOrder, a: Json, b: Json)
    requires WellFormed(a) && WellFormed(b) && a.Obj? && b.Obj? && Canon(leq, a) == Canon(leq, b)
    ensures ObjectFields(leq, a) == ObjectFields(leq, b)
  {
    assert Canon(leq, a) + "" == Canon(leq, a) && Canon(leq, b) + "" == Canon(leq, b);
    ObjectPrefixFree(leq, a, b);
    SameObjects(leq, a.entries, b.entries, "", "");
    SameFields(ObjectFields(leq, a), ObjectFields(leq, b));
  }

  /**
   * An object's text is the same for every order of its entries exactly when no two of its keys tie.
   * A comparison by language rules may call different keys equal, and then it is not.
   */
  lemma KeyOrderIrrelevantIff(leq: KeyOrder, entries: seq<Entry>)
    requires TotalPreorder(leq) && WellFormed(Obj(entries))
    ensures (forall other :: multiset(other) == multiset(entries) ==> Canon(leq, Obj(other)) == Canon(leq, Obj(entries)))
            <==> NoKeyTies(leq, entries)
  {
    if NoKeyTies(leq, entries) {
      forall other | multiset(other) == multiset(entries) ensures Canon(leq, Obj(other)) == Canon(leq, Obj(entries)) {
        ReorderedFields(leq, entries, other);
        SameFieldsSameText(leq, entries, other);
      }
    } else {
      var i, j :| 0 <= i < j < |entries| && leq(entries[i].key, entries[j].key) && leq(entries[j].key, entries[i].key);
      TieShows(leq, entries, i, j);
    }
  }
}
