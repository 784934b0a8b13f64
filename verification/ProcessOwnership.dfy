/**
  Attribution of the live members of a process group. A member is owned if it was
  retained before under the same birth, or descends from such a member through parents
  that are live members of the group themselves.
 */
module ProcessOwnership {
  import opened Common

  type Pid = int
  type Birth = string

  datatype Refusal = IdentityChanged | Unattributed

  /** A chain of parents inside the live group, from `path[0]` up to a root. */
  ghost predicate Chain(parents: map<Pid, Pid>, live: set<Pid>, roots: set<Pid>, path: seq<Pid>) {
    && path != []
    && (forall i | 0 <= i < |path| :: path[i] in live)
    && (forall i | 0 <= i < |path| - 1 :: path[i] in parents && parents[path[i]] == path[i + 1])
    && path[|path| - 1] in roots
  }

  ghost predicate Attributed(parents: map<Pid, Pid>, live: set<Pid>, roots: set<Pid>, pid: Pid) {
    exists path :: Chain(parents, live, roots, path) && path[0] == pid
  }

  /** No retained member changed its birth, and every live member is attributed. */
  ghost predicate Owned(retained: map<Pid, Birth>, parents: map<Pid, Pid>, current: map<Pid, Birth>) {
    && (forall pid | pid in current && pid in retained :: retained[pid] == current[pid])
    && (forall pid | pid in current :: Attributed(parents, current.Keys, current.Keys * retained.Keys, pid))
  }

  lemma RootIsAttributed(parents: map<Pid, Pid>, live: set<Pid>, roots: set<Pid>, pid: Pid)
    requires pid in live && pid in roots
    ensures Attributed(parents, live, roots, pid)
  {
    assert Chain(parents, live, roots, [pid]) && [pid][0] == pid;
  }

  lemma ChildIsAttributed(parents: map<Pid, Pid>, live: set<Pid>, roots: set<Pid>, pid: Pid)
    requires pid in live && pid in parents && Attributed(parents, live, roots, parents[pid])
    ensures Attributed(parents, live, roots, pid)
  {
    var path :| Chain(parents, live, roots, path) && path[0] == parents[pid];
    var longer := [pid] + path;
    assert forall i | 0 <= i < |longer| - 1 :: longer[i] in parents && parents[longer[i]] == longer[i + 1];
    assert Chain(parents, live, roots, longer) && longer[0] == pid;
  }

  /** A chain that starts outside a set holding its root enters it from a direct child. */
  lemma {:induction false} ChainCrosses(
      parents: map<Pid, Pid>, live: set<Pid>, roots: set<Pid>, proven: set<Pid>, path: seq<Pid>) returns (pid: Pid)
    requires Chain(parents, live, roots, path) && roots * live <= proven && path[0] !in proven
    ensures pid in live && pid !in proven && pid in parents && parents[pid] in proven
  {
    if path[1] in proven {
      pid := path[0];
    } else {
      assert Chain(parents, live, roots, path[1..]);
      pid := ChainCrosses(parents, live, roots, proven, path[1..]);
    }
  }

  lemma HasMember(s: set<Pid>)
    requires s != {}
    ensures exists pid :: pid in s
  {
    if forall pid :: pid !in s {
      assert false;
    }
  }

  /** The members proven by their own retained identity. */
  method ProveRetained(current: map<Pid, Birth>, retained: map<Pid, Birth>) returns (r: Result<set<Pid>, Refusal>)
    ensures r.Ok? <==> forall pid | pid in current && pid in retained :: retained[pid] == current[pid]
    ensures r.Ok? ==> r.value == current.Keys * retained.Keys
    ensures r.Err? ==> r.error == IdentityChanged
  {
    var proven: set<Pid> := {};
    var rest := current.Keys;
    while rest != {}
      invariant rest <= current.Keys
      invariant forall pid :: pid in proven <==> pid in current && pid in retained && pid !in rest
      invariant forall pid | pid in current && pid in retained && pid !in rest :: retained[pid] == current[pid]
      decreases |rest|
    {
      HasMember(rest);
      var pid :| pid in rest;
      if pid in retained {
        if retained[pid] != current[pid] {
          return Err(IdentityChanged);
        }
        proven := proven + {pid};
      }
      rest := rest - {pid};
    }
    forall pid
      ensures pid in proven <==> pid in current.Keys * retained.Keys
    {
      assert pid !in rest;
    }
    return Ok(proven);
  }

  /**
    Starting from the roots, adopt the children of proven members until nothing is left or
    nothing is added. All live members are proven exactly when all are attributed.
   */
  method Spread(parents: map<Pid, Pid>, live: set<Pid>, roots: set<Pid>) returns (all: bool)
    requires live <= parents.Keys && roots <= live
    ensures all <==> forall pid | pid in live :: Attributed(parents, live, roots, pid)
  {
    hide Attributed;
    var proven, pending := roots, live - roots;
    forall pid | pid in proven
      ensures Attributed(parents, live, roots, pid)
    {
      RootIsAttributed(parents, live, roots, pid);
    }
    while pending != {}
      invariant roots <= proven <= live && pending == live - proven
      invariant forall pid | pid in proven :: Attributed(parents, live, roots, pid)
      decreases |pending|
    {
      var descendants := set pid | pid in pending && parents[pid] in proven;
      if descendants == {} {
        assert forall pid | pid in live && pid !in proven :: pid in pending && pid !in descendants;
        NotAllAttributed(parents, live, roots, proven);
        return false;
      }
      AdoptChildren(parents, live, roots, proven, descendants);
      ShrinksBy(pending, descendants);
      proven := proven + descendants;
      pending := pending - descendants;
    }
    assert forall pid | pid in live :: pid in proven || pid in pending;
    return true;
  }

  lemma AdoptChildren(parents: map<Pid, Pid>, live: set<Pid>, roots: set<Pid>, proven: set<Pid>, children: set<Pid>)
    requires forall pid | pid in children :: pid in live && pid in parents && parents[pid] in proven
    requires forall pid | pid in proven :: Attributed(parents, live, roots, pid)
    ensures forall pid | pid in children :: Attributed(parents, live, roots, pid)
  {
    forall pid | pid in children
      ensures Attributed(parents, live, roots, pid)
    {
      ChildIsAttributed(parents, live, roots, pid);
    }
  }

  lemma ShrinksBy(a: set<Pid>, b: set<Pid>)
    requires b <= a && b != {}
    ensures |a - b| < |a|
  {
  }

  /** The attribution of `retain_owned`: it succeeds if and only if the group is owned. */
  method Attribute(parents: map<Pid, Pid>, current: map<Pid, Birth>, retained: map<Pid, Birth>)
    returns (r: Result<map<Pid, Birth>, Refusal>)
    requires current.Keys <= parents.Keys
    ensures r.Ok? <==> Owned(retained, parents, current)
    ensures r.Ok? ==> r.value == retained + current
  {
    hide Attributed;
    var base := ProveRetained(current, retained);
    if base.Err? {
      return Err(base.error);
    }
    var all := Spread(parents, current.Keys, base.value);
    if !all {
      return Err(Unattributed);
    }
    return Ok(retained + current);
  }

  lemma NotAllAttributed(parents: map<Pid, Pid>, live: set<Pid>, roots: set<Pid>, proven: set<Pid>)
    requires live <= parents.Keys && roots <= proven <= live && live - proven != {}
    requires forall pid | pid in live && pid !in proven :: parents[pid] !in proven
    ensures exists pid | pid in live :: !Attributed(parents, live, roots, pid)
  {
    HasMember(live - proven);
    var pid :| pid in live - proven;
    if Attributed(parents, live, roots, pid) {
      var path :| Chain(parents, live, roots, path) && path[0] == pid;
      var crossing := ChainCrosses(parents, live, roots, proven, path);
      assert false;
    }
  }

  // ----- Many observations

  datatype Observation = Observation(parents: map<Pid, Pid>, current: map<Pid, Birth>)

  /** The retained members after one observation; a refused one changes nothing. */
  ghost function AfterObservation(retained: map<Pid, Birth>, o: Observation): map<Pid, Birth> {
    if Owned(retained, o.parents, o.current) then retained + o.current else retained
  }

  ghost function AfterObservations(retained: map<Pid, Birth>, os: seq<Observation>): map<Pid, Birth> {
    if os == [] then retained
    else AfterObservation(AfterObservations(retained, os[..|os| - 1]), os[|os| - 1])
  }

  /** Over any sequence of observations the retained members only grow, and no pid gets another birth. */
  lemma {:induction false} RetentionOnlyGrows(retained: map<Pid, Birth>, os: seq<Observation>)
    ensures retained.Keys <= AfterObservations(retained, os).Keys
    ensures forall pid | pid in retained :: AfterObservations(retained, os)[pid] == retained[pid]
  {
    if os != [] {
      RetentionOnlyGrows(retained, os[..|os| - 1]);
    }
  }

  /**
    A member that is retained and lives in an owned group belongs to the group for good:
    the same observation is owned again afterwards.
   */
  lemma OwnedIsStable(retained: map<Pid, Birth>, o: Observation)
    requires Owned(retained, o.parents, o.current)
    ensures Owned(AfterObservation(retained, o), o.parents, o.current)
  {
  }
}
