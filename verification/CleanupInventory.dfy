/**
 * The inventory a cleanup is judged by: a fact's snapshot is the digest of the canonical text of its stored rows, and
 * decides whether the fact is active and which version it has.
 */
module CleanupInventory {
  import opened Wrappers
  import opened Permutations
  import opened Canonical
  import opened CanonicalUnambiguous
  import opened CleanupReviews
  import opened CleanupEvaluation

  /** The rows as stored; `others` holds the columns that nothing here reads. */
  datatype StoredFact = StoredFact(id: string, state: string, version: Option<string>, pinned: bool, others: seq<Entry>)
  datatype StoredVersion = StoredVersion(id: string, fact: string, state: string, purgedAt: Option<string>, mode: string, frame: Json,
                                         others: seq<Entry>)

  /** The rows of one user; `owned` are the facts with an event of the user's own. */
  datatype Store = Store(facts: seq<StoredFact>, versions: seq<StoredVersion>, owned: set<string>)

  function VersionsOf(s: Store, fact: string): seq<StoredVersion> {
    Filter((v: StoredVersion) => v.fact == fact, s.versions)
  }

  /** The version with the id; of two rows the later counts. */
  function VersionById(versions: seq<StoredVersion>, id: string): Option<StoredVersion> {
    if versions == [] then None
    else if versions[|versions| - 1].id == id then Some(versions[|versions| - 1])
    else VersionById(versions[..|versions| - 1], id)
  }

  predicate ActiveFact(versions: seq<StoredVersion>, f: StoredFact) {
    var current := if f.version.Some? && f.version.value != "" then VersionById(versions, f.version.value) else None;
    f.state == "ACTIVE" && current.Some? && current.value.state == "ACTIVE" && current.value.purgedAt.None?
  }

  /** The user asked for it to be remembered. */
  predicate Explicit(v: StoredVersion) {
    v.mode == "EXPLICIT" ||
    (v.frame.Obj? && exists i :: 0 <= i < |v.frame.entries| && v.frame.entries[i] == Entry("memoryDirective", Str("EXPLICIT_REMEMBER")))
  }

  predicate GuardedFact(s: Store, f: StoredFact) {
    f.pinned || (exists i :: 0 <= i < |s.versions| && s.versions[i].fact == f.id && Explicit(s.versions[i])) || f.id in s.owned
  }

  // ---------------------------------------------------------------- the snapshot of a fact

  function Text(o: Option<string>): Json {
    match o case Some(text) => Str(text) case None => Null
  }

  function FactRow(f: StoredFact): seq<Entry> {
    [Entry("id", Str(f.id)), Entry("state", Str(f.state)), Entry("currentVersionId", Text(f.version)), Entry("pinned", Bool(f.pinned))] +
    f.others
  }

  function VersionRow(v: StoredVersion): seq<Entry> {
    [Entry("id", Str(v.id)), Entry("factId", Str(v.fact)), Entry("state", Str(v.state)),
     Entry("contentPurgedAt", if v.purgedAt.Some? then Date(v.purgedAt.value) else Null),
     Entry("sourceMode", Str(v.mode)), Entry("semanticFrame", v.frame)] + v.others
  }

  function VersionRows(versions: seq<StoredVersion>): seq<Json> {
    seq(|versions|, i requires 0 <= i < |versions| => Obj(VersionRow(versions[i])))
  }

  function Snapshot(f: StoredFact, versions: seq<StoredVersion>): seq<Entry> {
    [Entry("fact", Obj(FactRow(f))), Entry("versions", Arr(VersionRows(versions)))]
  }

  function SnapshotText(s: Store, f: StoredFact, leq: KeyOrder): string {
    Canon(leq, Obj(Snapshot(f, VersionsOf(s, f.id))))
  }

  function Inventory(s: Store, leq: KeyOrder, digest: string -> string): seq<FactState> {
    seq(|s.facts|, i requires 0 <= i < |s.facts| =>
      var f := s.facts[i];
      FactState(f.id, f.version, ActiveFact(s.versions, f), GuardedFact(s, f), digest(SnapshotText(s, f, leq))))
  }

  /** No two different texts of these facts have one digest. */
  ghost predicate NoCollision(s: Store, t: Store, leq: KeyOrder, digest: string -> string) {
    forall f, g :: f in s.facts && g in t.facts && digest(SnapshotText(s, f, leq)) == digest(SnapshotText(t, g, leq)) ==>
      SnapshotText(s, f, leq) == SnapshotText(t, g, leq)
  }

  /** A row's columns are named apart and hold values of the program. */
  ghost predicate RowFormed(row: seq<Entry>) {
    WellFormed(Obj(row))
  }

  /** Version ids are unique, and a fact's current version is one of its own: the stored rows' keys say so. */
  ghost predicate Keyed(s: Store) {
    (forall i, j :: 0 <= i < j < |s.versions| ==> s.versions[i].id != s.versions[j].id) &&
    (forall f, v :: f in s.facts && v in s.versions && f.version == Some(v.id) ==> v.fact == f.id) &&
    (forall f :: f in s.facts ==> RowFormed(FactRow(f))) && forall v :: v in s.versions ==> RowFormed(VersionRow(v))
  }

  // ---------------------------------------------------------------- a fact's own versions decide

  lemma {:induction false} VersionByIdElement(versions: seq<StoredVersion>, id: string)
    ensures var found := VersionById(versions, id);
            if found.Some? then found.value in versions && found.value.id == id else forall v :: v in versions ==> v.id != id
  {
    if versions != [] {
      VersionByIdElement(versions[..|versions| - 1], id);
      assert versions == versions[..|versions| - 1] + [versions[|versions| - 1]];
    }
  }

  /** Whether a fact is active shows in its own versions already. */
  lemma ActiveByOwnVersions(s: Store, f: StoredFact)
    requires Keyed(s) && f in s.facts
    ensures ActiveFact(s.versions, f) == ActiveFact(VersionsOf(s, f.id), f)
  {
    if f.version.Some? {
      FoundInOwn(s, f, f.version.value);
    }
  }

  lemma FoundInOwn(s: Store, f: StoredFact, id: string)
    requires Keyed(s) && f in s.facts && f.version == Some(id)
    ensures VersionById(s.versions, id) == VersionById(VersionsOf(s, f.id), id)
  {
    hide RowFormed, VersionById;
    var own := VersionsOf(s, f.id);
    FilterElements((v: StoredVersion) => v.fact == f.id, s.versions);
    VersionByIdElement(s.versions, id);
    VersionByIdElement(own, id);
    var all, mine := VersionById(s.versions, id), VersionById(own, id);
    if all.Some? {
      assert all.value in own;
      SameId(s, all.value, mine.value);
    }
  }

  lemma SameId(s: Store, v: StoredVersion, w: StoredVersion)
    requires Keyed(s) && v in s.versions && w in s.versions && v.id == w.id
    ensures v == w
  {
    hide RowFormed;
    var i :| 0 <= i < |s.versions| && s.versions[i] == v;
    var j :| 0 <= j < |s.versions| && s.versions[j] == w;
  }

  // ---------------------------------------------------------------- equal texts, equal columns

  /** Rows of one meaning agree in each column. */
  lemma SameColumn(a: seq<Entry>, b: seq<Entry>, i: nat, j: nat)
    requires Meaning(Obj(a)) == Meaning(Obj(b)) && UniqueKeys(b) && i < |a| && j < |b| && a[i].key == b[j].key
    ensures Meaning(a[i].value) == Meaning(b[j].value)
  {
    MeaningObj(a);
    MeaningObj(b);
    assert Member(a[i].key, Meaning(a[i].value)) in Members(b);
  }

  lemma SameFactRow(f: StoredFact, g: StoredFact)
    requires Meaning(Obj(FactRow(f))) == Meaning(Obj(FactRow(g))) && RowFormed(FactRow(g))
    ensures f.id == g.id && f.state == g.state && f.version == g.version && f.pinned == g.pinned
  {
    var a, b := FactRow(f), FactRow(g);
    SameColumn(a, b, 0, 0);
    SameColumn(a, b, 1, 1);
    SameColumn(a, b, 2, 2);
    SameColumn(a, b, 3, 3);
  }

  predicate SameVersion(v: StoredVersion, w: StoredVersion) {
    v.id == w.id && v.fact == w.fact && v.state == w.state && v.purgedAt == w.purgedAt && v.mode == w.mode
  }

  lemma SamePurge(v: StoredVersion, w: StoredVersion)
    requires Meaning(Obj(VersionRow(v))) == Meaning(Obj(VersionRow(w))) && RowFormed(VersionRow(w))
    ensures v.purgedAt == w.purgedAt
  {
    SameColumn(VersionRow(v), VersionRow(w), 3, 3);
  }

  lemma SameVersionRow(v: StoredVersion, w: StoredVersion)
    requires Meaning(Obj(VersionRow(v))) == Meaning(Obj(VersionRow(w))) && RowFormed(VersionRow(w))
    ensures SameVersion(v, w)
  {
    var a, b := VersionRow(v), VersionRow(w);
    SameColumn(a, b, 0, 0);
    SameColumn(a, b, 1, 1);
    SameColumn(a, b, 2, 2);
    SamePurge(v, w);
    SameColumn(a, b, 4, 4);
  }

  /** Snapshots of one canonical text are of the same fact, in the same state, with the same versions. */
  lemma SnapshotDetermines(leq: KeyOrder, f: StoredFact, g: StoredFact, own: seq<StoredVersion>, other: seq<StoredVersion>)
    requires Canon(leq, Obj(Snapshot(f, own))) == Canon(leq, Obj(Snapshot(g, other)))
    requires SnapshotFormed(f, own) && SnapshotFormed(g, other)
    ensures f.id == g.id && f.state == g.state && f.version == g.version && f.pinned == g.pinned
    ensures |own| == |other| && forall i :: 0 <= i < |own| ==> SameVersion(own[i], other[i])
  {
    hide Canon, FactRow, VersionRow;
    var a, b := Snapshot(f, own), Snapshot(g, other);
    SnapshotIsFormed(f, own);
    SnapshotIsFormed(g, other);
    TextDeterminesMeaning(leq, Obj(a), Obj(b));
    SameColumn(a, b, 0, 0);
    SameFactRow(f, g);
    SameColumn(a, b, 1, 1);
    SameItems(VersionRows(own), VersionRows(other));
    forall i | 0 <= i < |own| ensures SameVersion(own[i], other[i]) {
      assert VersionRows(own)[i] == Obj(VersionRow(own[i])) && VersionRows(other)[i] == Obj(VersionRow(other[i]));
      assert other[i] in other;
      SameVersionRow(own[i], other[i]);
    }
  }

  ghost predicate SnapshotFormed(f: StoredFact, versions: seq<StoredVersion>) {
    RowFormed(FactRow(f)) && forall v :: v in versions ==> RowFormed(VersionRow(v))
  }

  lemma SnapshotIsFormed(f: StoredFact, versions: seq<StoredVersion>)
    requires SnapshotFormed(f, versions)
    ensures WellFormed(Obj(Snapshot(f, versions))) && UniqueKeys(Snapshot(f, versions))
  {
    hide FactRow, VersionRow;
    var row, rows := Snapshot(f, versions), VersionRows(versions);
    assert row[0].key[0] == 'f' && row[1].key[0] == 'v';
    forall i | 0 <= i < |rows| ensures WellFormed(rows[i]) {
      assert versions[i] in versions;
      assert rows[i] == Obj(VersionRow(versions[i]));
    }
    assert WellFormed(Arr(rows));
  }

  lemma SameItems(a: seq<Json>, b: seq<Json>)
    requires Meaning(Arr(a)) == Meaning(Arr(b))
    ensures |a| == |b| && forall i :: 0 <= i < |a| ==> Meaning(a[i]) == Meaning(b[i])
  {
    var left, right := Meaning(Arr(a)).items, Meaning(Arr(b)).items;
    assert |a| == |left| == |right| == |b|;
    forall i | 0 <= i < |a| ensures Meaning(a[i]) == Meaning(b[i]) {
      assert left[i] == Meaning(a[i]) && right[i] == Meaning(b[i]);
    }
  }

  lemma {:induction false} SameActivity(f: StoredFact, g: StoredFact, own: seq<StoredVersion>, other: seq<StoredVersion>)
    requires f.state == g.state && f.version == g.version
    requires |own| == |other| && forall i :: 0 <= i < |own| ==> SameVersion(own[i], other[i])
    ensures ActiveFact(own, f) == ActiveFact(other, g)
  {
    if own != [] {
      SameActivity(f, g, own[..|own| - 1], other[..|other| - 1]);
    }
  }

  // ---------------------------------------------------------------- what the inventory says

  /** The later of two rows with the id, if there is one. */
  lemma {:induction false} LastWithId(versions: seq<StoredVersion>, id: string)
    ensures VersionById(versions, id) == None <==> forall k :: 0 <= k < |versions| ==> versions[k].id != id
    ensures VersionById(versions, id).Some? ==>
              exists k :: 0 <= k < |versions| && versions[k].id == id && VersionById(versions, id) == Some(versions[k]) &&
                forall l :: k < l < |versions| ==> versions[l].id != id
  {
    if versions != [] {
      var init := versions[..|versions| - 1];
      LastWithId(init, id);
      if versions[|init|].id != id && VersionById(init, id).Some? {
        var k :| 0 <= k < |init| && init[k].id == id && VersionById(init, id) == Some(init[k]) && forall l :: k < l < |init| ==> init[l].id != id;
        assert versions[k].id == id;
      }
    }
  }

  /** A row of the version that counts: there and not purged. */
  predicate IsCurrent(versions: seq<StoredVersion>, f: StoredFact, k: nat)
    requires k < |versions|
  {
    f.version == Some(versions[k].id) && versions[k].id != "" && versions[k].state == "ACTIVE" && versions[k].purgedAt == None &&
    forall l :: k < l < |versions| ==> versions[l].id != versions[k].id
  }

  /**
   * One entry for each fact, in order. It is active exactly when the fact is and its current version is active and not purged. It is
   * protected exactly when it is pinned, the user has an event of it, or some version of it was saved on the user's own word.
   */
  lemma InventoryMeans(s: Store, leq: KeyOrder, digest: string -> string, i: nat)
    requires i < |s.facts|
    ensures |Inventory(s, leq, digest)| == |s.facts|
    ensures var f, x := s.facts[i], Inventory(s, leq, digest)[i];
            && x.fact == f.id && x.version == f.version
            && (x.active <==> f.state == "ACTIVE" && exists k :: 0 <= k < |s.versions| && IsCurrent(s.versions, f, k))
            && (x.guarded <==> f.pinned || f.id in s.owned || exists k :: 0 <= k < |s.versions| && OnTheUsersWord(s.versions[k], f))
  {
    ActiveIff(s.versions, s.facts[i]);
    GuardedIff(s, s.facts[i]);
    hide ActiveFact, GuardedFact, IsCurrent, OnTheUsersWord, SnapshotText;
  }

  lemma ActiveIff(versions: seq<StoredVersion>, f: StoredFact)
    ensures ActiveFact(versions, f) <==> f.state == "ACTIVE" && exists k :: 0 <= k < |versions| && IsCurrent(versions, f, k)
  {
    if f.version.Some? {
      LastWithId(versions, f.version.value);
    }
    if ActiveFact(versions, f) {
      var k :| 0 <= k < |versions| && versions[k].id == f.version.value && VersionById(versions, f.version.value) == Some(versions[k]) &&
        forall l :: k < l < |versions| ==> versions[l].id != f.version.value;
      assert IsCurrent(versions, f, k);
    }
    if k :| 0 <= k < |versions| && IsCurrent(versions, f, k) {
      assert VersionById(versions, f.version.value) == Some(versions[k]);
    }
  }

  lemma GuardedIff(s: Store, f: StoredFact)
    ensures GuardedFact(s, f) <==> f.pinned || f.id in s.owned || exists k :: 0 <= k < |s.versions| && OnTheUsersWord(s.versions[k], f)
  {
    hide OnTheUsersWord, Explicit;
    forall k | 0 <= k < |s.versions| ensures OnTheUsersWord(s.versions[k], f) <==> s.versions[k].fact == f.id && Explicit(s.versions[k]) {
      ExplicitIff(s.versions[k], f);
    }
  }

  /** A version of the fact saved in the explicit mode, or whose frame tells that the user asked to remember. */
  predicate OnTheUsersWord(v: StoredVersion, f: StoredFact) {
    v.fact == f.id && (v.mode == "EXPLICIT" || (v.frame.Obj? && Entry("memoryDirective", Str("EXPLICIT_REMEMBER")) in v.frame.entries))
  }

  lemma ExplicitIff(v: StoredVersion, f: StoredFact)
    ensures OnTheUsersWord(v, f) <==> v.fact == f.id && Explicit(v)
  {
    if v.frame.Obj? {
      assert Entry("memoryDirective", Str("EXPLICIT_REMEMBER")) in v.frame.entries <==>
        exists i :: 0 <= i < |v.frame.entries| && v.frame.entries[i] == Entry("memoryDirective", Str("EXPLICIT_REMEMBER"));
    }
  }

  // ---------------------------------------------------------------- what the snapshots decide

  /** Unless two different texts collide, the snapshots of two inventories decide a fact's activity and version. */
  lemma InventoriesDecide(s: Store, t: Store, leq: KeyOrder, digest: string -> string)
    requires Keyed(s) && Keyed(t) && NoCollision(s, t, leq, digest)
    ensures SnapshotsDecide(Inventory(s, leq, digest), Inventory(t, leq, digest))
  {
    hide RowFormed, ActiveFact, GuardedFact, Canon;
    var a, b := Inventory(s, leq, digest), Inventory(t, leq, digest);
    forall x, y | x in a && y in b && x.fact == y.fact && x.snapshot == y.snapshot ensures x.active == y.active && x.version == y.version {
      var i :| 0 <= i < |a| && a[i] == x;
      var j :| 0 <= j < |b| && b[j] == y;
      FactsDecide(s, t, s.facts[i], t.facts[j], leq, digest);
    }
  }

  lemma FactsDecide(s: Store, t: Store, f: StoredFact, g: StoredFact, leq: KeyOrder, digest: string -> string)
    requires Keyed(s) && Keyed(t) && NoCollision(s, t, leq, digest) && f in s.facts && g in t.facts
    requires digest(SnapshotText(s, f, leq)) == digest(SnapshotText(t, g, leq))
    ensures ActiveFact(s.versions, f) == ActiveFact(t.versions, g) && f.version == g.version
  {
    hide RowFormed, ActiveFact, Canon;
    var own, other := VersionsOf(s, f.id), VersionsOf(t, g.id);
    FilterElements((v: StoredVersion) => v.fact == f.id, s.versions);
    FilterElements((v: StoredVersion) => v.fact == g.id, t.versions);
    SnapshotDetermines(leq, f, g, own, other);
    ActiveByOwnVersions(s, f);
    ActiveByOwnVersions(t, g);
    SameActivity(f, g, own, other);
  }

  /** From the stored rows to the verdict: a protected fact the rubric expects retained passes in every admitted evaluation. */
  lemma ProtectedFactPasses(s: Store, t: Store, leq: KeyOrder, digest: string -> string, fixture: seq<Assertion>, removed: set<string>,
                            reviewed: Option<set<string>>, i: Item)
    requires Keyed(s) && Keyed(t) && NoCollision(s, t, leq, digest)
    requires Admitted(fixture, Inventory(s, leq, digest), Inventory(t, leq, digest), removed)
    requires i in Items(fixture) && i.guarded && i.expected == Retain
    ensures ItemPassed(Sides(ByFact(Inventory(s, leq, digest)), ByFact(Inventory(t, leq, digest)), reviewed), i)
  {
    InventoriesDecide(s, t, leq, digest);
    ProtectedAlwaysPass(fixture, Inventory(s, leq, digest), Inventory(t, leq, digest), removed, reviewed, i);
  }
}
