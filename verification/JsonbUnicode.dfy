/** The check that a JSON value can be stored in a PostgreSQL JSONB column. */
module JsonbUnicode {
  import opened Common

  /** A Python string: code points, surrogates included. */
  type Text = seq<nat>

  datatype Json =
    | Null
    | Bool(truth: bool)
    | Number(number: real)
    | Str(text: Text)
    | Arr(items: seq<Json>)
    | Obj(members: seq<Member>)

  datatype Member = Member(key: Text, value: Json)

  /** Neither NUL nor a surrogate occurs. */
  predicate Storable(text: Text) {
    forall i | 0 <= i < |text| :: text[i] != 0 && !(0xD800 <= text[i] <= 0xDFFF)
  }

  // ----- What the check is for

  /** One step into a value: a list item, a key, or the value of a key. */
  datatype Step = Item(index: nat) | Key(index: nat) | Value(index: nat)

  /** The part of `value` at the end of `path`, a key counting as a string. */
  function At(value: Json, path: seq<Step>): Option<Json>
    decreases |path|
  {
    if path == [] then Some(value) else
    match (path[0], value)
    case (Item(i), Arr(items)) => if i < |items| then At(items[i], path[1..]) else None
    case (Key(i), Obj(members)) => if i < |members| then At(Str(members[i].key), path[1..]) else None
    case (Value(i), Obj(members)) => if i < |members| then At(members[i].value, path[1..]) else None
    case _ => None
  }

  ghost predicate BadAt(value: Json, path: seq<Step>) {
    match At(value, path)
    case Some(Str(text)) => exists i | 0 <= i < |text| :: text[i] == 0 || 0xD800 <= text[i] <= 0xDFFF
    case _ => false
  }

  /** No string and no key, at any depth, holds NUL or a surrogate. */
  ghost predicate Clean(value: Json) {
    forall path: seq<Step> :: !BadAt(value, path)
  }

  // ----- The same by structure

  predicate Good(value: Json) {
    match value
    case Str(text) => Storable(text)
    case Arr(items) => forall i | 0 <= i < |items| :: Good(items[i])
    case Obj(members) => forall i | 0 <= i < |members| :: Storable(members[i].key) && Good(members[i].value)
    case _ => true
  }

  predicate AllGood(values: seq<Json>) {
    forall i | 0 <= i < |values| :: Good(values[i])
  }

  lemma {:induction false} GoodIsCleanAt(value: Json, path: seq<Step>)
    requires Good(value)
    ensures !BadAt(value, path)
    decreases |path|
  {
    if path != [] {
      match (path[0], value)
      case (Item(i), Arr(items)) => if i < |items| { GoodIsCleanAt(items[i], path[1..]); }
      case (Key(i), Obj(members)) => if i < |members| { GoodIsCleanAt(Str(members[i].key), path[1..]); }
      case (Value(i), Obj(members)) => if i < |members| { GoodIsCleanAt(members[i].value, path[1..]); }
      case _ =>
    }
  }

  lemma {:induction false} FindBad(value: Json) returns (path: seq<Step>)
    requires !Good(value)
    ensures BadAt(value, path)
    decreases value
  {
    match value
    case Str(text) =>
      path := [];
    case Arr(items) =>
      var i :| 0 <= i < |items| && !Good(items[i]);
      var rest := FindBad(items[i]);
      path := [Item(i)] + rest;
      assert path[1..] == rest;
    case Obj(members) =>
      var i :| 0 <= i < |members| && !(Storable(members[i].key) && Good(members[i].value));
      if !Storable(members[i].key) {
        path := [Key(i)];
        assert At(Str(members[i].key), path[1..]) == Some(Str(members[i].key));
      } else {
        var rest := FindBad(members[i].value);
        path := [Value(i)] + rest;
        assert path[1..] == rest;
      }
  }

  lemma GoodIffClean(value: Json)
    ensures Good(value) <==> Clean(value)
  {
    if Good(value) {
      forall path: seq<Step>
        ensures !BadAt(value, path)
      {
        GoodIsCleanAt(value, path);
      }
    } else {
      var path := FindBad(value);
    }
  }

  // ----- The measure of the worklist

  function Size(value: Json): nat
    decreases value
  {
    match value
    case Arr(items) => 1 + SizeAll(items)
    case Obj(members) => 1 + SizeMembers(members)
    case _ => 1
  }

  function SizeAll(values: seq<Json>): nat
    decreases values
  {
    if values == [] then 0 else SizeAll(values[..|values| - 1]) + Size(values[|values| - 1])
  }

  function SizeMembers(members: seq<Member>): nat
    decreases members
  {
    if members == [] then 0
    else SizeMembers(members[..|members| - 1]) + 1 + Size(members[|members| - 1].value)
  }

  function Keys(members: seq<Member>): seq<Json> {
    seq(|members|, i requires 0 <= i < |members| => Str(members[i].key))
  }

  function Values(members: seq<Member>): seq<Json> {
    seq(|members|, i requires 0 <= i < |members| => members[i].value)
  }

  lemma {:induction false} SizeAppends(a: seq<Json>, b: seq<Json>)
    ensures SizeAll(a + b) == SizeAll(a) + SizeAll(b)
  {
    if b == [] {
      assert a + b == a;
    } else {
      SizeAppends(a, b[..|b| - 1]);
      assert (a + b)[..|a + b| - 1] == a + b[..|b| - 1];
    }
  }

  lemma {:induction false} SizeSplits(members: seq<Member>)
    ensures SizeMembers(members) == SizeAll(Keys(members)) + SizeAll(Values(members))
  {
    if members != [] {
      var front := members[..|members| - 1];
      SizeSplits(front);
      assert Keys(members)[..|front|] == Keys(front) && Values(members)[..|front|] == Values(front);
    }
  }

  /** Replacing an object by its keys and values makes the worklist smaller. */
  lemma ExpandingShrinks(rest: seq<Json>, members: seq<Member>)
    ensures SizeAll(rest + Keys(members) + Values(members)) < SizeAll(rest) + Size(Obj(members))
  {
    SizeAppends(rest, Keys(members));
    SizeAppends(rest + Keys(members), Values(members));
    SizeSplits(members);
  }

  lemma ExpandingKeepsGood(rest: seq<Json>, members: seq<Member>)
    ensures AllGood(rest + Keys(members) + Values(members)) <==> AllGood(rest) && Good(Obj(members))
  {
    var keys, values := Keys(members), Values(members);
    var all := rest + keys + values;
    if AllGood(all) {
      forall i | 0 <= i < |rest|
        ensures Good(rest[i])
      {
        assert all[i] == rest[i];
      }
      forall i | 0 <= i < |members|
        ensures Storable(members[i].key) && Good(members[i].value)
      {
        assert all[|rest| + i] == keys[i] && all[|rest| + |keys| + i] == values[i];
        assert Good(keys[i]) && Good(values[i]);
      }
    }
  }

  lemma ListingKeepsGood(rest: seq<Json>, items: seq<Json>)
    ensures AllGood(rest + items) <==> AllGood(rest) && Good(Arr(items))
  {
    var all := rest + items;
    if AllGood(all) {
      forall i | 0 <= i < |rest|
        ensures Good(rest[i])
      {
        assert all[i] == rest[i];
      }
      forall i | 0 <= i < |items|
        ensures Good(items[i])
      {
        assert all[|rest| + i] == items[i];
      }
    }
  }

  // ----- The worklist

  /** `_validate_jsonb_unicode`: false where the original raises `ValueError`. */
  method ValidateJsonbUnicode(value: Json) returns (accepted: bool)
    ensures accepted <==> Clean(value)
  {
    GoodIffClean(value);
    var pending := [value];
    assert AllGood(pending) <==> Good(pending[0]);
    while pending != []
      invariant AllGood(pending) <==> Good(value)
      decreases SizeAll(pending)
    {
      var item := pending[|pending| - 1];
      var rest := pending[..|pending| - 1];
      assert pending == rest + [item];
      assert SizeAll(pending) == SizeAll(rest) + Size(item) && Size(item) > 0;
      ListingKeepsGood(rest, [item]);
      assert Good(Arr([item])) <==> Good([item][0]);
      pending := rest;
      match item {
        case Str(text) =>
          if !Storable(text) {
            return false;
          }
        case Obj(members) =>
          ExpandingShrinks(rest, members);
          ExpandingKeepsGood(rest, members);
          pending := pending + Keys(members) + Values(members);
        case Arr(items) =>
          SizeAppends(rest, items);
          ListingKeepsGood(rest, items);
          pending := pending + items;
        case _ =>
      }
    }
    return true;
  }
}
