/** The seeding command: group the assets by key, then insert, deactivate and activate per key. */
module PromptSeeder {
  import opened Common
  import opened PromptSeeding

  datatype SeedError = ImmutablePromptChanged(id: (Key, Version)) | IntegrityError

  // ----- When a list of assets is accepted

  function AssetsOf(assets: seq<Asset>, keys: set<Key>): set<Asset> {
    set a | a in assets && a.key in keys
  }

  /** A stored version keeps its checksum; a new one brings a new checksum. */
  predicate Admissible(rows: Table, a: Asset) {
    if Id(a) in rows then rows[Id(a)].checksum == a.checksum
    else forall x | x in rows :: rows[x].checksum != a.checksum
  }

  /** Two assets that would both be inserted. */
  predicate Clash(rows: Table, a: Asset, b: Asset) {
    Id(a) !in rows && Id(b) !in rows && (Id(a) == Id(b) || a.checksum == b.checksum)
  }

  /** Every asset of these keys is admissible, and no two of them would clash when inserted. */
  predicate Accepts(rows: Table, assets: seq<Asset>, keys: set<Key>) {
    && (forall i | 0 <= i < |assets| && assets[i].key in keys :: Admissible(rows, assets[i]))
    && (forall i, j | 0 <= i < j < |assets| && assets[i].key in keys && assets[j].key in keys ::
          !Clash(rows, assets[i], assets[j]))
  }

  /** The checksum is a digest of the content, taken as collision-free. */
  predicate Digests(assets: seq<Asset>) {
    forall a, b | a in assets && b in assets && a.checksum == b.checksum :: a.content == b.content
  }

  lemma AcceptsOneMore(rows: Table, front: seq<Asset>, a: Asset, keys: set<Key>)
    ensures Accepts(rows, front + [a], keys) <==>
            && Accepts(rows, front, keys)
            && (a.key in keys ==>
                  Admissible(rows, a) && forall b | b in front && b.key in keys :: !Clash(rows, b, a))
  {
    hide Admissible, Clash;
    var s := front + [a];
    assert forall i | 0 <= i < |front| :: s[i] == front[i];
    if Accepts(rows, s, keys) {
      assert a.key in keys ==> s[|front|] == a && Admissible(rows, s[|front|]);
      forall b | b in front && b.key in keys && a.key in keys
        ensures !Clash(rows, b, a)
      {
        var i :| 0 <= i < |front| && front[i] == b;
        assert s[i] == b && s[|front|] == a;
      }
    }
  }

  /** An accepted list with digests names every version once, so it can be seeded. */
  lemma AcceptedIsSeedable(rows: Table, assets: seq<Asset>, keys: set<Key>)
    requires Accepts(rows, assets, keys) && Digests(assets)
    ensures Seedable(rows, AssetsOf(assets, keys))
  {
  }

  /** Seeding other keys first changes nothing about the acceptance of this key. */
  lemma AcceptsNextKey(rows: Table, assets: seq<Asset>, keys: set<Key>, key: Key, mid: Table)
    requires Accepts(rows, assets, keys) && Digests(assets) && key !in keys
    requires Seedable(rows, AssetsOf(assets, keys)) && mid == Seeded(rows, AssetsOf(assets, keys))
    ensures Accepts(mid, assets, {key}) <==> Accepts(rows, assets, keys + {key})
  {
    var done := AssetsOf(assets, keys);
    SeededKeepsKeys(rows, done);
    SeedingKeepsRows(rows, done);
    hide Seeded;
    forall v: Version
      ensures (key, v) in mid <==> (key, v) in rows
    {
    }
    assert forall a | a in assets && a.key == key :: Id(a) in mid <==> Id(a) in rows;
    if Accepts(mid, assets, {key}) {
      NextKeyForward(rows, assets, keys, key, mid);
    }
    if Accepts(rows, assets, keys + {key}) {
      NextKeyBackward(rows, assets, keys, key, mid);
    }
  }

  lemma NextKeyForward(rows: Table, assets: seq<Asset>, keys: set<Key>, key: Key, mid: Table)
    requires Accepts(rows, assets, keys) && key !in keys
    requires Seedable(rows, AssetsOf(assets, keys)) && mid == Seeded(rows, AssetsOf(assets, keys))
    requires forall a | a in assets && a.key == key :: Id(a) in mid <==> Id(a) in rows
    requires Accepts(mid, assets, {key})
    ensures Accepts(rows, assets, keys + {key})
  {
    var done := AssetsOf(assets, keys);
    SeedingKeepsRows(rows, done);
    hide Seeded, Seedable;
    forall i | 0 <= i < |assets| && assets[i].key in keys + {key}
      ensures Admissible(rows, assets[i])
    {
      if assets[i].key == key {
        assert Admissible(mid, assets[i]);
      }
    }
    forall a, b | a in assets && b in assets && a.key in keys && b.key == key && Id(b) !in rows
      ensures a.checksum != b.checksum
    {
      assert a in done;
      SeededChecksum(rows, done, a);
      var j :| 0 <= j < |assets| && assets[j] == b;
      assert Admissible(mid, assets[j]);
    }
    forall i, j | 0 <= i < j < |assets| && assets[i].key in keys + {key} && assets[j].key in keys + {key}
      ensures !Clash(rows, assets[i], assets[j])
    {
      assert assets[i] in assets && assets[j] in assets;
      if assets[i].key == key && assets[j].key == key {
        assert !Clash(mid, assets[i], assets[j]);
      }
    }
  }

  lemma NextKeyBackward(rows: Table, assets: seq<Asset>, keys: set<Key>, key: Key, mid: Table)
    requires Accepts(rows, assets, keys + {key}) && key !in keys
    requires Seedable(rows, AssetsOf(assets, keys)) && mid == Seeded(rows, AssetsOf(assets, keys))
    requires forall a | a in assets && a.key == key :: Id(a) in mid <==> Id(a) in rows
    ensures Accepts(mid, assets, {key})
  {
    var done := AssetsOf(assets, keys);
    SeedingKeepsRows(rows, done);
    hide Seeded, Seedable;
    forall i | 0 <= i < |assets| && assets[i].key == key
      ensures Admissible(mid, assets[i])
    {
      assert assets[i] in assets && Admissible(rows, assets[i]);
      if Id(assets[i]) !in rows {
        forall x | x in mid
          ensures mid[x].checksum != assets[i].checksum
        {
          SeededFrom(rows, done, x);
          if x !in rows {
            var a :| a in done && Id(a) == x && a.checksum == mid[x].checksum;
            var j :| 0 <= j < |assets| && assets[j] == a;
            assert i < j ==> !Clash(rows, assets[i], assets[j]);
            assert j < i ==> !Clash(rows, assets[j], assets[i]);
          }
        }
      }
    }
    forall i, j | 0 <= i < j < |assets| && assets[i].key == key && assets[j].key == key
      ensures !Clash(mid, assets[i], assets[j])
    {
      assert assets[i] in assets && assets[j] in assets;
      assert !Clash(rows, assets[i], assets[j]);
    }
  }

  // ----- Grouping by key

  function OfKey(assets: seq<Asset>, key: Key): seq<Asset> {
    if assets == [] then [] else
    var front, last := OfKey(assets[..|assets| - 1], key), assets[|assets| - 1];
    if last.key == key then front + [last] else front
  }

  /** A group holds the assets of its key, and is accepted exactly when they are. */
  lemma {:induction false} GroupIsAccepted(rows: Table, assets: seq<Asset>, key: Key)
    ensures forall a :: a in OfKey(assets, key) <==> a in assets && a.key == key
    ensures Accepts(rows, OfKey(assets, key), {key}) <==> Accepts(rows, assets, {key})
  {
    if assets != [] {
      var front, last := assets[..|assets| - 1], assets[|assets| - 1];
      GroupIsAccepted(rows, front, key);
      assert assets == front + [last];
      AcceptsOneMore(rows, front, last, {key});
      AcceptsOneMore(rows, OfKey(front, key), last, {key});
    }
  }

  /** Some asset of key `k` comes before every asset of key `l`. */
  ghost predicate AppearsBefore(assets: seq<Asset>, k: Key, l: Key) {
    exists a | 0 <= a < |assets| :: assets[a].key == k && forall b | 0 <= b <= a :: assets[b].key != l
  }

  /** The keys, each where it first appears. */
  function KeysOf(assets: seq<Asset>): seq<Key> {
    if assets == [] then [] else
    var front, key := KeysOf(assets[..|assets| - 1]), assets[|assets| - 1].key;
    if key in front then front else front + [key]
  }

  ghost predicate HasKey(assets: seq<Asset>, k: Key) {
    exists a | a in assets :: a.key == k
  }

  lemma HasKeyOneMore(front: seq<Asset>, a: Asset, k: Key)
    ensures HasKey(front + [a], k) <==> HasKey(front, k) || a.key == k
  {
    assert a in front + [a];
    if HasKey(front, k) {
      var x :| x in front && x.key == k;
      assert x in front + [a];
    }
  }

  lemma StillAppearsBefore(front: seq<Asset>, a: Asset, k: Key, l: Key)
    requires AppearsBefore(front, k, l)
    ensures AppearsBefore(front + [a], k, l)
  {
    var longer := front + [a];
    var i :| 0 <= i < |front| && front[i].key == k && forall b | 0 <= b <= i :: front[b].key != l;
    assert longer[i].key == k && forall b | 0 <= b <= i :: longer[b] == front[b];
  }

  lemma NewKeyAppearsLast(front: seq<Asset>, a: Asset, k: Key)
    requires HasKey(front, k) && !HasKey(front, a.key)
    ensures AppearsBefore(front + [a], k, a.key)
  {
    var x :| x in front && x.key == k;
    var i :| 0 <= i < |front| && front[i] == x;
    assert (front + [a])[i].key == k;
    forall b | 0 <= b <= i
      ensures (front + [a])[b].key != a.key
    {
      assert front[b] in front;
    }
  }

  lemma {:induction false} KeysAreThose(assets: seq<Asset>, k: Key)
    ensures k in KeysOf(assets) <==> HasKey(assets, k)
  {
    if assets != [] {
      var front, a := assets[..|assets| - 1], assets[|assets| - 1];
      KeysAreThose(front, k);
      HasKeyOneMore(front, a, k);
      assert front + [a] == assets;
      hide HasKey;
    }
  }

  lemma {:induction false} KeysInOrder(assets: seq<Asset>, i: nat, j: nat)
    requires i < j < |KeysOf(assets)|
    ensures KeysOf(assets)[i] != KeysOf(assets)[j]
    ensures AppearsBefore(assets, KeysOf(assets)[i], KeysOf(assets)[j])
  {
    hide AppearsBefore, HasKey;
    var front, a := assets[..|assets| - 1], assets[|assets| - 1];
    var before := KeysOf(front);
    assert front + [a] == assets;
    if j < |before| {
      KeysInOrder(front, i, j);
      StillAppearsBefore(front, a, before[i], before[j]);
    } else {
      KeysAreThose(front, before[i]);
      KeysAreThose(front, a.key);
      NewKeyAppearsLast(front, a, before[i]);
    }
  }

  /** `assets_by_key`: every key once, in the order in which the keys first appear, with its assets. */
  method GroupByKey(assets: seq<Asset>) returns (keys: seq<Key>, groups: map<Key, seq<Asset>>)
    ensures forall i, j | 0 <= i < j < |keys| :: keys[i] != keys[j] && AppearsBefore(assets, keys[i], keys[j])
    ensures forall k :: k in keys <==> k in groups
    ensures forall k :: k in groups <==> HasKey(assets, k)
    ensures forall k | k in groups :: groups[k] == OfKey(assets, k) && groups[k] != []
  {
    hide AppearsBefore, HasKey;
    keys, groups := [], map[];
    for i := 0 to |assets|
      invariant keys == KeysOf(assets[..i])
      invariant forall k :: k in keys <==> k in groups
      invariant forall k | k in groups :: groups[k] == OfKey(assets[..i], k) && groups[k] != []
      invariant forall k | k !in groups :: OfKey(assets[..i], k) == []
    {
      var a := assets[i];
      assert assets[..i + 1][..i] == assets[..i];
      assert forall k :: OfKey(assets[..i + 1], k) == if a.key == k then OfKey(assets[..i], k) + [a] else OfKey(assets[..i], k);
      if a.key !in groups {
        keys := keys + [a.key];
        groups := groups[a.key := []];
      }
      groups := groups[a.key := groups[a.key] + [a]];
    }
    assert assets[..|assets|] == assets;
    forall i, j | 0 <= i < j < |keys|
      ensures keys[i] != keys[j] && AppearsBefore(assets, keys[i], keys[j])
    {
      KeysInOrder(assets, i, j);
    }
    forall k
      ensures k in keys <==> HasKey(assets, k)
    {
      KeysAreThose(assets, k);
    }
  }

  // ----- The statements

  function Deactivated(rows: Table, key: Key): Table {
    map id | id in rows :: if id.0 == key then rows[id].(active := false) else rows[id]
  }

  function Activated(rows: Table, key: Key, version: Version): Table {
    map id | id in rows :: if id == (key, version) then rows[id].(active := true) else rows[id]
  }

  /** The table after the inserts of one key: old rows untouched, new ones inactive. */
  ghost predicate Filled(rows: Table, filled: Table, assets: set<Asset>) {
    && filled.Keys == Known(rows, assets)
    && (forall id | id in rows :: filled[id] == rows[id])
    && (forall a | a in assets && Id(a) !in rows :: Id(a) in filled && filled[Id(a)] == Row(a.content, a.checksum, false))
  }

  lemma StatementsSeedRow(rows: Table, filled: Table, assets: set<Asset>, key: Key, top: Version, id: (Key, Version))
    requires Distinct(assets) && (forall a | a in assets :: a.key == key) && Seeds(assets, key)
    requires Filled(rows, filled, assets) && id in filled
    requires (key, top) in filled && Newest(filled.Keys, (key, top))
    ensures Activated(Deactivated(filled, key), key, top)[id] == SeededRow(rows, assets, id)
  {
  }

  /** Insert, deactivate and activate together give the declarative result. */
  lemma StatementsSeed(rows: Table, filled: Table, assets: set<Asset>, key: Key, top: Version)
    requires Distinct(assets) && (forall a | a in assets :: a.key == key) && Seeds(assets, key)
    requires Filled(rows, filled, assets)
    requires (key, top) in filled && Newest(filled.Keys, (key, top))
    ensures Activated(Deactivated(filled, key), key, top) == Seeded(rows, assets)
  {
    hide SeededRow, Newest, Known, Distinct, Seeds;
    forall id | id in filled
      ensures Activated(Deactivated(filled, key), key, top)[id] == SeededRow(rows, assets, id)
    {
      StatementsSeedRow(rows, filled, assets, key, top, id);
    }
  }

  class PromptTable {
    var rows: Table

    ghost predicate Valid()
      reads this
    {
      OneActive(rows) && UniqueChecksums(rows)
    }

    /** One inserted row; the unique constraints may refuse it. */
    method Insert(a: Asset) returns (ok: bool)
      requires Valid()
      modifies this
      ensures Valid()
      ensures ok <==> Id(a) !in old(rows) && forall x | x in old(rows) :: old(rows)[x].checksum != a.checksum
      ensures rows == if ok then old(rows)[Id(a) := Row(a.content, a.checksum, false)] else old(rows)
    {
      if Id(a) in rows || exists x | x in rows :: rows[x].checksum == a.checksum {
        return false;
      }
      rows := rows[Id(a) := Row(a.content, a.checksum, false)];
      return true;
    }

    method Deactivate(key: Key)
      requires Valid()
      modifies this
      ensures Valid() && rows == Deactivated(old(rows), key) && |rows| == |old(rows)|
    {
      assert Deactivated(rows, key).Keys == rows.Keys;
      rows := Deactivated(rows, key);
    }

    method Activate(key: Key, version: Version)
      requires Valid() && forall id | id in rows && id.0 == key :: !rows[id].active
      modifies this
      ensures Valid() && rows == Activated(old(rows), key, version) && |rows| == |old(rows)|
    {
      assert Activated(rows, key, version).Keys == rows.Keys;
      rows := Activated(rows, key, version);
    }

    /** Flush the pending inserts of one key. */
    method Flush(pending: seq<Asset>) returns (ok: bool)
      requires Valid() && forall i | 0 <= i < |pending| :: Id(pending[i]) !in rows
      modifies this
      ensures Valid()
      ensures ok <==> Insertable(old(rows), pending)
      ensures ok ==> Filled(old(rows), rows, AsSet(pending)) && |rows| == |old(rows)| + |pending|
    {
      FilledByNothing(rows);
      for j := 0 to |pending|
        invariant Valid()
        invariant Insertable(old(rows), pending[..j])
        invariant Filled(old(rows), rows, AsSet(pending[..j])) && |rows| == |old(rows)| + j
      {
        InsertOneMore(old(rows), rows, pending, j);
        var inserted := Insert(pending[j]);
        if !inserted {
          assert !Insertable(old(rows), pending) by {
            if Insertable(old(rows), pending) { InsertableIsPrefixClosed(old(rows), pending, j + 1); }
          }
          return false;
        }
      }
      assert pending[..|pending|] == pending;
      return true;
    }

    /** Everything `seed_prompt_versions` does for one key. */
    method SeedKey(key: Key, group: seq<Asset>) returns (r: Result<nat, SeedError>)
      requires Valid() && Digests(group)
      requires group != [] && forall a | a in group :: a.key == key
      modifies this
      ensures Valid()
      ensures r.Ok? <==> Accepts(old(rows), group, {key})
      ensures r.Ok? ==> Seedable(old(rows), AsSet(group)) && rows == Seeded(old(rows), AsSet(group))
      ensures r.Ok? ==> |rows| == |old(rows)| + r.value
    {
      hide Accepts, Seedable, Insertable, Filled, NewOnes, Seeded, Newest, OneActive, UniqueChecksums, Digests;
      GroupAccepted(rows, group, key);
      var pending := Scan(rows, group);
      if pending.Err? {
        return Err(pending.error);
      }
      var top := NewestVersion(rows, key, group);
      NewOnesAreNew(rows, group);
      ghost var before := rows;
      var ok := Flush(pending.value);
      if !ok {
        return Err(IntegrityError);
      }
      FilledByGroup(before, rows, group);
      AcceptedIsSeedable(before, group, {key});
      assert AssetsOf(group, {key}) == AsSet(group);
      assert Seeds(AsSet(group), key) by { assert group[0] in AsSet(group); }
      SeedableIsDistinct(before, AsSet(group));
      FilledKeys(before, rows, AsSet(group));
      StatementsSeed(before, rows, AsSet(group), key, top);
      Deactivate(key);
      Activate(key, top);
      return Ok(|pending.value|);
    }

    /**
      Seed all assets. It succeeds exactly when no stored version has another checksum and
      the new ones repeat neither a version nor a checksum; then the table is the
      declarative result and the count is that of the new rows. On failure nothing is
      committed.
     */
    method Seed(assets: seq<Asset>) returns (r: Result<nat, SeedError>)
      requires Valid() && Digests(assets)
      modifies this
      ensures Valid()
      ensures r.Err? ==> rows == old(rows)
      ensures r.Ok? <==> Accepts(old(rows), assets, AllKeys(assets))
      ensures r.Ok? ==> Seedable(old(rows), AsSet(assets)) && rows == Seeded(old(rows), AsSet(assets))
      ensures r.Ok? ==> |rows| == |old(rows)| + r.value
    {
      hide Accepts, Seedable, Seeded, OneActive, UniqueChecksums;
      var before := rows;
      var inserted := 0;
      var keys, groups := GroupByKey(assets);
      SeedNothing(rows, assets);
      for n := 0 to |keys|
        invariant Valid() && |rows| == |before| + inserted
        invariant var done := KeySet(keys[..n]);
                  && Accepts(before, assets, done)
                  && Seedable(before, AssetsOf(assets, done))
                  && Distinct(AssetsOf(assets, done)) && rows == Seeded(before, AssetsOf(assets, done))
      {
        ghost var done, key, mid := KeySet(keys[..n]), keys[n], rows;
        KeysOneMore(keys, n);
        AcceptsNextKey(before, assets, done, key, mid);
        GroupIsAccepted(mid, assets, key);
        DigestsGroup(assets, groups[key], key);
        var one := SeedKey(keys[n], groups[keys[n]]);
        if one.Err? {
          rows := before;
          AcceptsFewer(before, assets, done + {key}, AllKeys(assets));
          return Err(one.error);
        }
        inserted := inserted + one.value;
        SeedNextKey(before, assets, done, key, mid);
      }
      assert keys[..|keys|] == keys;
      assert KeySet(keys) == AllKeys(assets);
      assert AssetsOf(assets, AllKeys(assets)) == AsSet(assets);
      return Ok(inserted);
    }
  }

  // ----- Scanning a group

  /** The assets of a group that are not stored yet. */
  function NewOnes(rows: Table, group: seq<Asset>): seq<Asset> {
    if group == [] then [] else
    var front, last := NewOnes(rows, group[..|group| - 1]), group[|group| - 1];
    if Id(last) in rows then front else front + [last]
  }

  predicate StoredMatch(rows: Table, group: seq<Asset>) {
    forall a | a in group && Id(a) in rows :: rows[Id(a)].checksum == a.checksum
  }

  method Scan(rows: Table, group: seq<Asset>) returns (r: Result<seq<Asset>, SeedError>)
    ensures r.Ok? <==> StoredMatch(rows, group)
    ensures r.Ok? ==> r.value == NewOnes(rows, group)
  {
    var pending: seq<Asset> := [];
    for i := 0 to |group|
      invariant StoredMatch(rows, group[..i]) && pending == NewOnes(rows, group[..i])
    {
      var a := group[i];
      assert group[..i + 1] == group[..i] + [a];
      if Id(a) !in rows {
        pending := pending + [a];
      } else if rows[Id(a)].checksum != a.checksum {
        return Err(ImmutablePromptChanged(Id(a)));
      }
    }
    assert group[..|group|] == group;
    return Ok(pending);
  }

  lemma {:induction false} NewOnesAreNew(rows: Table, group: seq<Asset>)
    ensures forall a :: a in NewOnes(rows, group) <==> a in group && Id(a) !in rows
    ensures forall i | 0 <= i < |NewOnes(rows, group)| :: Id(NewOnes(rows, group)[i]) !in rows
  {
    if group != [] {
      NewOnesAreNew(rows, group[..|group| - 1]);
      assert group == group[..|group| - 1] + [group[|group| - 1]];
    }
  }

  lemma InsertableOneMore(rows: Table, front: seq<Asset>, a: Asset)
    ensures Insertable(rows, front + [a]) <==>
            && Insertable(rows, front)
            && Id(a) !in rows && Admissible(rows, a) && forall b | b in front :: !Clash(rows, b, a)
  {
    hide Admissible, Clash;
    var s := front + [a];
    assert forall i | 0 <= i < |front| :: s[i] == front[i];
    if Insertable(rows, s) {
      assert s[|front|] == a;
      forall b | b in front
        ensures !Clash(rows, b, a)
      {
        var i :| 0 <= i < |front| && front[i] == b;
        assert !Clash(rows, s[i], s[|front|]);
      }
    }
  }

  /** A group is accepted exactly when the scan passes and its new assets can be inserted. */
  lemma {:induction false} GroupAccepted(rows: Table, group: seq<Asset>, key: Key)
    requires forall a | a in group :: a.key == key
    ensures Accepts(rows, group, {key}) <==> StoredMatch(rows, group) && Insertable(rows, NewOnes(rows, group))
  {
    if group != [] {
      var front, last := group[..|group| - 1], group[|group| - 1];
      assert group == front + [last];
      GroupAccepted(rows, front, key);
      AcceptsOneMore(rows, front, last, {key});
      NewOnesAreNew(rows, front);
      InsertableOneMore(rows, NewOnes(rows, front), last);
      hide Accepts, Insertable;
      assert StoredMatch(rows, group) <==>
             StoredMatch(rows, front) && (Id(last) in rows ==> rows[Id(last)].checksum == last.checksum);
    }
  }

  lemma FilledByGroup(rows: Table, filled: Table, group: seq<Asset>)
    requires Filled(rows, filled, AsSet(NewOnes(rows, group)))
    ensures Filled(rows, filled, AsSet(group))
  {
    NewOnesAreNew(rows, group);
    assert Known(rows, AsSet(group)) == Known(rows, AsSet(NewOnes(rows, group)));
  }

  lemma FilledKeys(rows: Table, filled: Table, assets: set<Asset>)
    requires Filled(rows, filled, assets)
    ensures filled.Keys == Known(rows, assets)
  {
  }

  lemma SeedableIsDistinct(rows: Table, assets: set<Asset>)
    requires Seedable(rows, assets)
    ensures Distinct(assets)
  {
  }

  /** `max((*existing, *versions))`. */
  method NewestVersion(rows: Table, key: Key, group: seq<Asset>) returns (top: Version)
    requires group != [] && forall a | a in group :: a.key == key
    ensures (key, top) in Known(rows, AsSet(group)) && Newest(Known(rows, AsSet(group)), (key, top))
  {
    top := group[0].version;
    assert Id(group[0]) in Known(rows, AsSet(group));
    for i := 0 to |group|
      invariant (key, top) in Known(rows, AsSet(group))
      invariant forall j | 0 <= j < i :: group[j].version <= top
    {
      assert group[i] in AsSet(group) && Id(group[i]) in Known(rows, AsSet(group));
      top := Max(top, group[i].version);
    }
    var rest := set id | id in rows && id.0 == key;
    while rest != {}
      invariant forall id | id in rest :: id in rows && id.0 == key
      invariant (key, top) in Known(rows, AsSet(group))
      invariant forall j | 0 <= j < |group| :: group[j].version <= top
      invariant forall id | id in rows && id.0 == key && id !in rest :: id.1 <= top
      decreases |rest|
    {
      var id :| id in rest;
      top := Max(top, id.1);
      rest := rest - {id};
    }
  }

  // ----- Key after key

  function KeySet(keys: seq<Key>): set<Key> {
    set k | k in keys
  }

  function AllKeys(assets: seq<Asset>): set<Key> {
    set a | a in assets :: a.key
  }

  lemma KeysOneMore(keys: seq<Key>, n: nat)
    requires n < |keys| && forall i, j | 0 <= i < j < |keys| :: keys[i] != keys[j]
    ensures KeySet(keys[..n + 1]) == KeySet(keys[..n]) + {keys[n]} && keys[n] !in KeySet(keys[..n])
  {
  }

  lemma SeedNothing(rows: Table, assets: seq<Asset>)
    ensures KeySet([]) == {} && AssetsOf(assets, {}) == {}
    ensures Accepts(rows, assets, {}) && Seedable(rows, {}) && Seeded(rows, {}) == rows
  {
    assert Known(rows, {}) == rows.Keys;
  }

  lemma AcceptsFewer(rows: Table, assets: seq<Asset>, keys: set<Key>, all: set<Key>)
    requires !Accepts(rows, assets, keys)
    requires forall a | a in assets && a.key in keys :: a.key in all
    ensures !Accepts(rows, assets, all)
  {
  }

  lemma DigestsGroup(assets: seq<Asset>, group: seq<Asset>, key: Key)
    requires Digests(assets) && group == OfKey(assets, key)
    ensures Digests(group) && forall a | a in group :: a.key == key
    ensures AsSet(group) == AssetsOf(assets, {key})
  {
    GroupIsAccepted(map[], assets, key);
  }

  lemma SeedNextKey(rows: Table, assets: seq<Asset>, keys: set<Key>, key: Key, mid: Table)
    requires Digests(assets) && Accepts(rows, assets, keys + {key})
    requires Distinct(AssetsOf(assets, keys)) && mid == Seeded(rows, AssetsOf(assets, keys))
    ensures Seedable(rows, AssetsOf(assets, keys + {key}))
    ensures Distinct(AssetsOf(assets, {key})) && Distinct(AssetsOf(assets, keys + {key}))
    ensures Seeded(mid, AssetsOf(assets, {key})) == Seeded(rows, AssetsOf(assets, keys + {key}))
  {
    AcceptedIsSeedable(rows, assets, keys + {key});
    assert AssetsOf(assets, keys + {key}) == AssetsOf(assets, keys) + AssetsOf(assets, {key});
    SeedableIsDistinct(rows, AssetsOf(assets, keys + {key}));
    SeedingComposes(rows, AssetsOf(assets, keys), AssetsOf(assets, {key}));
  }

  function AsSet(assets: seq<Asset>): set<Asset> {
    set a | a in assets
  }

  /** All of these can be inserted, one after another. */
  predicate Insertable(rows: Table, pending: seq<Asset>) {
    && (forall i | 0 <= i < |pending| :: Id(pending[i]) !in rows && Admissible(rows, pending[i]))
    && (forall i, j | 0 <= i < j < |pending| :: !Clash(rows, pending[i], pending[j]))
  }

  lemma InsertableIsPrefixClosed(rows: Table, pending: seq<Asset>, n: nat)
    requires n <= |pending| && Insertable(rows, pending)
    ensures Insertable(rows, pending[..n])
  {
  }

  lemma FilledByNothing(rows: Table)
    ensures Filled(rows, rows, AsSet([]))
  {
  }

  /** The next insert succeeds exactly when the longer list is insertable. */
  lemma InsertOneMore(rows: Table, mid: Table, pending: seq<Asset>, j: nat)
    requires j < |pending| && Insertable(rows, pending[..j]) && Filled(rows, mid, AsSet(pending[..j]))
    requires Id(pending[j]) !in rows
    ensures var a := pending[j];
            && ((Id(a) !in mid && forall x | x in mid :: mid[x].checksum != a.checksum)
                <==> Insertable(rows, pending[..j + 1]))
            && (Id(a) !in mid ==> Filled(rows, mid[Id(a) := Row(a.content, a.checksum, false)], AsSet(pending[..j + 1])))
  {
    hide Insertable, Filled;
    var a, front := pending[j], pending[..j];
    assert pending[..j + 1] == front + [a];
    assert AsSet(pending[..j + 1]) == AsSet(front) + {a};
    if Id(a) !in mid && forall x | x in mid :: mid[x].checksum != a.checksum {
      ExtendInsertable(rows, mid, front, a);
    }
    if Insertable(rows, front + [a]) {
      RefuseNothing(rows, mid, front, a);
    }
    if Id(a) !in mid {
      FilledOneMore(rows, mid, AsSet(front), a);
    }
  }

  lemma FilledOneMore(rows: Table, mid: Table, done: set<Asset>, a: Asset)
    requires Filled(rows, mid, done) && Id(a) !in rows && Id(a) !in mid
    ensures Filled(rows, mid[Id(a) := Row(a.content, a.checksum, false)], done + {a})
  {
  }

  lemma ExtendInsertable(rows: Table, mid: Table, front: seq<Asset>, a: Asset)
    requires Insertable(rows, front) && Filled(rows, mid, AsSet(front)) && Id(a) !in rows
    requires Id(a) !in mid && forall x | x in mid :: mid[x].checksum != a.checksum
    ensures Insertable(rows, front + [a])
  {
    assert Admissible(rows, a) by {
      assert forall x | x in rows :: x in mid && mid[x] == rows[x];
    }
    forall i | 0 <= i < |front|
      ensures !Clash(rows, front[i], a)
    {
      assert front[i] in AsSet(front) && Id(front[i]) in mid;
    }
  }

  lemma RefuseNothing(rows: Table, mid: Table, front: seq<Asset>, a: Asset)
    requires Insertable(rows, front + [a]) && Filled(rows, mid, AsSet(front))
    ensures Id(a) !in mid && forall x | x in mid :: mid[x].checksum != a.checksum
  {
    var s := front + [a];
    assert s[|front|] == a && Admissible(rows, s[|front|]);
    forall x | x in mid
      ensures x != Id(a) && mid[x].checksum != a.checksum
    {
      if x !in rows {
        var b :| b in AsSet(front) && Id(b) == x;
        var i :| 0 <= i < |front| && front[i] == b;
        assert !Clash(rows, s[i], s[|front|]);
      }
    }
  }
}
