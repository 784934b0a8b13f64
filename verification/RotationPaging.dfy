/** The ordered, limited page an operator reads: `id > :after ORDER BY id LIMIT :limit`. */
module RotationPaging {
  import opened Common
  import opened Credentials

  ghost predicate StrictlyAscending(ids: seq<Uuid>) {
    forall i, j | 0 <= i < j < |ids| :: ids[i] < ids[j]
  }

  function Elements(ids: seq<Uuid>): set<Uuid> {
    set id | id in ids
  }

  lemma LeastExists(s: set<Uuid>)
    requires s != {}
    ensures exists m :: m in s && forall x | x in s :: m <= x
  {
    var x :| x in s;
    if s == {x} {
      assert x in s && forall y | y in s :: x <= y;
    } else {
      var rest := s - {x};
      assert s == rest + {x};
      LeastExists(rest);
      var m :| m in rest && forall y | y in rest :: m <= y;
      var best := Min(m, x);
      assert forall y | y in s :: y == x || y in rest;
      assert best in s && forall y | y in s :: best <= y;
    }
  }

  function Least(s: set<Uuid>): (m: Uuid)
    requires s != {}
    ensures m in s && forall x | x in s :: m <= x
  {
    LeastExists(s);
    var m :| m in s && forall x | x in s :: m <= x;
    m
  }

  lemma PrependLeast(m: Uuid, rest: seq<Uuid>, s: set<Uuid>)
    requires m in s && forall x | x in s :: m <= x
    requires Elements(rest) == s - {m} && StrictlyAscending(rest)
    ensures Elements([m] + rest) == s
    ensures StrictlyAscending([m] + rest)
  {
    assert forall i | 0 <= i < |rest| :: rest[i] in Elements(rest);
    forall x
      ensures x in Elements([m] + rest) <==> x in s
    {
      assert x in [m] + rest <==> x == m || x in rest;
      assert x in rest <==> x in Elements(rest);
    }
  }

  /** The elements of a set of ids in ascending order. */
  function Ascending(s: set<Uuid>): (ids: seq<Uuid>)
    ensures Elements(ids) == s
    ensures StrictlyAscending(ids)
    ensures |ids| == |s|
  {
    if s == {} then [] else
    var m := Least(s);
    var rest := Ascending(s - {m});
    PrependLeast(m, rest, s);
    [m] + rest
  }

  /** An ascending listing of a set is unique. */
  lemma {:induction false} AscendingUnique(a: seq<Uuid>, b: seq<Uuid>)
    requires StrictlyAscending(a) && StrictlyAscending(b)
    requires Elements(a) == Elements(b)
    ensures a == b
  {
    assert a != [] ==> a[0] in Elements(a);
    assert b != [] ==> b[0] in Elements(b);
    if a != [] && b != [] {
      assert a[0] in b && b[0] in a;
      assert a[0] == b[0];
      var a', b' := a[1..], b[1..];
      assert Elements(a') == Elements(a) - {a[0]} by {
        assert forall x | x in Elements(a') :: x in a && x > a[0];
        assert forall x | x in Elements(a) && x != a[0] :: x in a';
      }
      assert Elements(b') == Elements(b) - {b[0]} by {
        assert forall x | x in Elements(b') :: x in b && x > b[0];
        assert forall x | x in Elements(b) && x != b[0] :: x in b';
      }
      AscendingUnique(a', b');
    }
  }

  function Candidates(db: Db, config: Config, kind: Kind, after: Uuid): set<Uuid> {
    var table := db.TableOf(kind);
    set id | id in table && Selectable(db, config, kind, id) && id > after
  }

  function Take(ids: seq<Uuid>, limit: nat): (page: seq<Uuid>)
    ensures page <= ids && |page| == Min(limit, |ids|)
  {
    if limit <= |ids| then ids[..limit] else ids
  }

  lemma TakesTheLeast(all: seq<Uuid>, limit: nat)
    requires StrictlyAscending(all)
    ensures var page := Take(all, limit);
            forall id | id in all && id !in page :: |page| == limit && forall i | 0 <= i < |page| :: page[i] < id
  {
  }

  /** The ids of one page: the least candidates. */
  function PageIds(db: Db, config: Config, kind: Kind, after: Uuid, limit: nat): (ids: seq<Uuid>)
    ensures StrictlyAscending(ids) && |ids| <= limit
    ensures forall id | id in ids :: id in Candidates(db, config, kind, after)
    ensures forall id | id in Candidates(db, config, kind, after) && id !in ids ::
              |ids| == limit && forall i | 0 <= i < |ids| :: ids[i] < id
  {
    var all := Ascending(Candidates(db, config, kind, after));
    assert forall id | id in all :: id in Elements(all);
    TakesTheLeast(all, limit);
    assert forall id | id in Candidates(db, config, kind, after) :: id in Elements(all);
    Take(all, limit)
  }

  function Views(db: Db, kind: Kind, ids: seq<Uuid>): (rows: seq<Row>)
    requires forall id | id in ids :: View(db, kind, id).Some?
    ensures |rows| == |ids|
    ensures forall i | 0 <= i < |rows| :: rows[i].id == ids[i] && Some(rows[i]) == View(db, kind, ids[i])
  {
    if ids == [] then [] else [View(db, kind, ids[0]).value] + Views(db, kind, ids[1..])
  }

  lemma PageIsSelectable(db: Db, config: Config, kind: Kind, after: Uuid, limit: nat)
    ensures forall id | id in PageIds(db, config, kind, after, limit) ::
              Selectable(db, config, kind, id) && View(db, kind, id).Some? && id > after
  {
  }

  /** The rows of one page. */
  function Page(db: Db, config: Config, kind: Kind, after: Uuid, limit: nat): (rows: seq<Row>)
    ensures var ids := PageIds(db, config, kind, after, limit);
            && |rows| == |ids|
            && forall i | 0 <= i < |rows| :: rows[i].id == ids[i] && Some(rows[i]) == View(db, kind, ids[i])
  {
    PageIsSelectable(db, config, kind, after, limit);
    Views(db, kind, PageIds(db, config, kind, after, limit))
  }

  lemma SuffixAscends(ids: seq<Uuid>, from: nat)
    requires StrictlyAscending(ids) && from <= |ids|
    ensures StrictlyAscending(ids[from..])
  {
  }

  /**
    Keyset pagination refines a whole scan: if the candidates above `after` are the
    elements of `all` from position `done` on, the page is the next slice of `all`.
   */
  lemma PageIsNextSlice(db: Db, config: Config, kind: Kind, all: seq<Uuid>, done: nat, after: Uuid, limit: nat)
    requires StrictlyAscending(all) && done <= |all|
    requires Candidates(db, config, kind, after) == Elements(all[done..])
    ensures PageIds(db, config, kind, after, limit) == all[done..Min(done + limit, |all|)]
  {
    hide Candidates, StrictlyAscending, Elements, Ascending;
    var rest := all[done..];
    SuffixAscends(all, done);
    AscendingUnique(rest, Ascending(Candidates(db, config, kind, after)));
    assert Take(rest, limit) == all[done..Min(done + limit, |all|)];
  }
}
