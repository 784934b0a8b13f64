/**
  Seeding versioned prompts: rows are immutable, the newest known version of a seeded key
  is the active one, and the order of seeding does not matter.
 */
module PromptSeeding {
  import opened Common

  type Key = string
  type Version = int

  datatype Asset = Asset(key: Key, version: Version, content: string, checksum: string)

  datatype Row = Row(content: string, checksum: string, active: bool)

  /** `prompt_versions`, by its unique (key, version). */
  type Table = map<(Key, Version), Row>

  function Id(a: Asset): (Key, Version) {
    (a.key, a.version)
  }

  // ----- Table constraints

  /** The partial unique index: one active version of a key. */
  predicate OneActive(rows: Table) {
    forall x, y | x in rows && y in rows && x.0 == y.0 && rows[x].active && rows[y].active :: x == y
  }

  predicate UniqueChecksums(rows: Table) {
    forall x, y | x in rows && y in rows && rows[x].checksum == rows[y].checksum :: x == y
  }

  // ----- The result of seeding, declaratively

  predicate Distinct(assets: set<Asset>) {
    forall a, b | a in assets && b in assets && Id(a) == Id(b) :: a == b
  }

  function Known(rows: Table, assets: set<Asset>): set<(Key, Version)> {
    rows.Keys + set a | a in assets :: Id(a)
  }

  predicate Seeds(assets: set<Asset>, key: Key) {
    exists a | a in assets :: a.key == key
  }

  predicate Newest(known: set<(Key, Version)>, id: (Key, Version)) {
    forall x | x in known && x.0 == id.0 :: x.1 <= id.1
  }

  function AssetFor(assets: set<Asset>, id: (Key, Version)): (a: Asset)
    requires Distinct(assets) && exists a :: a in assets && Id(a) == id
    ensures a in assets && Id(a) == id
  {
    var a :| a in assets && Id(a) == id;
    a
  }

  function SeededRow(rows: Table, assets: set<Asset>, id: (Key, Version)): Row
    requires Distinct(assets) && id in Known(rows, assets)
  {
    var active := Newest(Known(rows, assets), id);
    if id in rows then
      rows[id].(active := if Seeds(assets, id.0) then active else rows[id].active)
    else
      var a := AssetFor(assets, id);
      Row(a.content, a.checksum, active)
  }

  /** Every known version, with the newest of each seeded key active. */
  function Seeded(rows: Table, assets: set<Asset>): Table
    requires Distinct(assets)
  {
    map id | id in Known(rows, assets) :: SeededRow(rows, assets, id)
  }

  /** When seeding succeeds: no stored checksum is contradicted, and no new one repeats. */
  predicate Seedable(rows: Table, assets: set<Asset>) {
    && Distinct(assets)
    && (forall a | a in assets && Id(a) in rows :: rows[Id(a)].checksum == a.checksum)
    && (forall a | a in assets && Id(a) !in rows :: forall x | x in rows :: rows[x].checksum != a.checksum)
    && (forall a, b | a in assets && b in assets && Id(a) !in rows && Id(b) !in rows && a.checksum == b.checksum ::
          a == b)
  }

  // ----- Properties of the result

  /** No stored content or checksum changes, and no row disappears. */
  lemma SeedingKeepsRows(rows: Table, assets: set<Asset>)
    requires Distinct(assets)
    ensures forall id | id in rows ::
              && id in Seeded(rows, assets)
              && Seeded(rows, assets)[id] == rows[id].(active := Seeded(rows, assets)[id].active)
              && (!Seeds(assets, id.0) ==> Seeded(rows, assets)[id] == rows[id])
  {
  }

  /** A new version gets the content and the checksum of its asset. */
  lemma SeedingInsertsAssets(rows: Table, assets: set<Asset>, a: Asset)
    requires Distinct(assets) && a in assets && Id(a) !in rows
    ensures (a.key, a.version) in Seeded(rows, assets)
    ensures Seeded(rows, assets)[(a.key, a.version)].content == a.content
    ensures Seeded(rows, assets)[(a.key, a.version)].checksum == a.checksum
  {
  }

  lemma {:induction false} NewestExists(known: set<(Key, Version)>, id: (Key, Version)) returns (top: (Key, Version))
    requires id in known
    ensures top in known && top.0 == id.0 && Newest(known, top)
    decreases |set x | x in known && x.0 == id.0 && x.1 > id.1|
  {
    var above := set x | x in known && x.0 == id.0 && x.1 > id.1;
    if above == {} {
      assert forall x | x in known && x.0 == id.0 :: x !in above;
      top := id;
    } else {
      var next :| next in above;
      var higher := set x | x in known && x.0 == next.0 && x.1 > next.1;
      assert higher < above by {
        assert next !in higher && forall x | x in higher :: x in above;
      }
      SmallerSubset(higher, above);
      top := NewestExists(known, next);
    }
  }

  lemma SmallerSubset<T>(a: set<T>, b: set<T>)
    requires a < b
    ensures |a| < |b|
  {
    var x :| x in b && x !in a;
    assert |b| == |b - {x}| + 1;
    SubsetSize(a, b - {x});
  }

  lemma {:induction false} SubsetSize<T>(a: set<T>, b: set<T>)
    requires a <= b
    ensures |a| <= |b|
  {
    assert b == a + (b - a);
  }

  /** Exactly the newest known version of a seeded key is active; the index holds everywhere. */
  lemma SeedingActivatesNewest(rows: Table, assets: set<Asset>)
    requires Distinct(assets) && OneActive(rows)
    ensures OneActive(Seeded(rows, assets))
    ensures forall id | id in Seeded(rows, assets) && Seeds(assets, id.0) ::
              Seeded(rows, assets)[id].active <==> Newest(Known(rows, assets), id)
    ensures forall a | a in assets ::
              exists id | id in Seeded(rows, assets) :: id.0 == a.key && Seeded(rows, assets)[id].active
  {
    var known := Known(rows, assets);
    forall a | a in assets
      ensures exists id | id in Seeded(rows, assets) :: id.0 == a.key && Seeded(rows, assets)[id].active
    {
      assert Id(a) in known;
      var top := NewestExists(known, Id(a));
      assert top in Seeded(rows, assets) && Seeded(rows, assets)[top].active;
    }
  }

  lemma SeedingKeepsChecksumsUnique(rows: Table, assets: set<Asset>)
    requires UniqueChecksums(rows) && Seedable(rows, assets)
    ensures UniqueChecksums(Seeded(rows, assets))
  {
  }

  // ----- Confluence

  lemma KnownComposes(rows: Table, a: set<Asset>, b: set<Asset>)
    requires Distinct(a)
    ensures Known(Seeded(rows, a), b) == Known(rows, a + b)
  {
  }

  /** A key that only `a` seeds has the same known versions with and without `b`. */
  lemma NewestIsLocal(rows: Table, a: set<Asset>, b: set<Asset>, id: (Key, Version))
    requires !Seeds(b, id.0)
    ensures Newest(Known(rows, a + b), id) == Newest(Known(rows, a), id)
    ensures id in Known(rows, a + b) <==> id in Known(rows, a)
  {
  }

  lemma SeededRowComposes(rows: Table, a: set<Asset>, b: set<Asset>, id: (Key, Version))
    requires Distinct(a + b) && Distinct(a) && Distinct(b) && id in Known(rows, a + b)
    ensures id in Known(Seeded(rows, a), b)
    ensures SeededRow(Seeded(rows, a), b, id) == SeededRow(rows, a + b, id)
  {
    KnownComposes(rows, a, b);
    assert Seeds(a + b, id.0) <==> Seeds(a, id.0) || Seeds(b, id.0);
    if !Seeds(b, id.0) {
      NewestIsLocal(rows, a, b, id);
    }
    if id !in rows {
      var asset := AssetFor(a + b, id);
      if id in Known(rows, a) {
        assert AssetFor(a, id) == asset;
      } else {
        assert AssetFor(b, id) == asset;
      }
    }
  }

  lemma DistinctParts(a: set<Asset>, b: set<Asset>)
    requires Distinct(a + b)
    ensures Distinct(a) && Distinct(b)
  {
  }

  /** Seeding one set after another gives what seeding them together gives. */
  lemma SeedingComposes(rows: Table, a: set<Asset>, b: set<Asset>)
    requires Distinct(a + b)
    ensures Distinct(a) && Distinct(b)
    ensures Seeded(Seeded(rows, a), b) == Seeded(rows, a + b)
  {
    DistinctParts(a, b);
    KnownComposes(rows, a, b);
    hide SeededRow, Known, Newest;
    forall id | id in Known(rows, a + b)
      ensures Seeded(Seeded(rows, a), b)[id] == Seeded(rows, a + b)[id]
    {
      SeededRowComposes(rows, a, b, id);
    }
  }

  /** Confluence: compatible sets of assets give the same table in either order. */
  lemma SeedingCommutes(rows: Table, a: set<Asset>, b: set<Asset>)
    requires Distinct(a + b)
    ensures Distinct(a) && Distinct(b)
    ensures Seeded(Seeded(rows, a), b) == Seeded(Seeded(rows, b), a)
  {
    assert a + b == b + a;
    SeedingComposes(rows, a, b);
    SeedingComposes(rows, b, a);
  }

  lemma SeedingIsIdempotent(rows: Table, a: set<Asset>)
    requires Distinct(a)
    ensures Seeded(Seeded(rows, a), a) == Seeded(rows, a)
  {
    assert a + a == a;
    SeedingComposes(rows, a, a);
  }

  lemma SeededChecksum(rows: Table, a: set<Asset>, x: Asset)
    requires Seedable(rows, a) && x in a
    ensures Id(x) in Seeded(rows, a) && Seeded(rows, a)[Id(x)].checksum == x.checksum
  {
  }

  lemma SeededFrom(rows: Table, a: set<Asset>, id: (Key, Version))
    requires Distinct(a) && id in Seeded(rows, a)
    ensures || (id in rows && Seeded(rows, a)[id].checksum == rows[id].checksum)
            || (id !in rows && exists x :: x in a && Id(x) == id && x.checksum == Seeded(rows, a)[id].checksum)
  {
  }

  /** Two compatible sets can be seeded one after another exactly when they can be seeded together. */
  lemma SeedableComposes(rows: Table, a: set<Asset>, b: set<Asset>)
    requires Distinct(a + b)
    ensures Distinct(a)
    ensures Seedable(rows, a + b) <==> Seedable(rows, a) && Seedable(Seeded(rows, a), b)
  {
    DistinctParts(a, b);
    if Seedable(rows, a + b) { SeedableParts(rows, a, b); }
    if Seedable(rows, a) && Seedable(Seeded(rows, a), b) { SeedableWhole(rows, a, b); }
  }

  lemma SeedableParts(rows: Table, a: set<Asset>, b: set<Asset>)
    requires Seedable(rows, a + b) && Distinct(a) && Distinct(b)
    ensures Seedable(rows, a) && Seedable(Seeded(rows, a), b)
  {
    assert forall x | x in a :: x in a + b;
    assert forall x | x in b :: x in a + b;
    var mid := Seeded(rows, a);
    hide Seeded;
    forall x | x in b && Id(x) in mid
      ensures mid[Id(x)].checksum == x.checksum
    {
      SeededFrom(rows, a, Id(x));
    }
    forall x, y | x in b && Id(x) !in mid && y in mid
      ensures mid[y].checksum != x.checksum
    {
      SeededFrom(rows, a, y);
      SeededKeepsKeys(rows, a);
    }
    SeededKeepsKeys(rows, a);
  }

  lemma SeededKeepsKeys(rows: Table, a: set<Asset>)
    requires Distinct(a)
    ensures forall id :: id in Seeded(rows, a) <==> id in rows || exists x :: x in a && Id(x) == id
  {
  }

  lemma SeedableWhole(rows: Table, a: set<Asset>, b: set<Asset>)
    requires Distinct(a + b) && Seedable(rows, a) && Seedable(Seeded(rows, a), b)
    ensures Seedable(rows, a + b)
  {
    var mid := Seeded(rows, a);
    SeededKeepsKeys(rows, a);
    SeedingKeepsRows(rows, a);
    hide Seeded;
    forall x | x in a
      ensures Id(x) in mid && mid[Id(x)].checksum == x.checksum
    {
      SeededChecksum(rows, a, x);
    }
  }
}
