/**
  The registry of enabled connections (lib/keymaster.ts): an array of `Connection` objects that
  `enable` extends only when no entry has the requested name, so names stay unique.
 */
module Keymaster {
  import opened Wrappers
  import opened Connection

  /** The names of the given connections, in order. */
  function Names(conns: seq<Connection>): (r: seq<string>)
    ensures |r| == |conns|
    ensures forall i :: 0 <= i < |conns| ==> r[i] == conns[i].name
  {
    if conns == [] then [] else [conns[0].name] + Names(conns[1..])
  }

  /** No name occurs twice. */
  predicate Distinct(names: seq<string>)
  {
    forall i, j :: 0 <= i < j < |names| ==> names[i] != names[j]
  }

  /** The position of the entry that `find(conn => conn.name === name)` returns. */
  function FindByName(conns: seq<Connection>, name: string): (r: Option<nat>)
    ensures r.None? <==> forall i :: 0 <= i < |conns| ==> conns[i].name != name
    ensures r.Some? ==>
      r.value < |conns| && conns[r.value].name == name &&
      forall j :: 0 <= j < r.value ==> conns[j].name != name
  {
    if conns == [] then None
    else if conns[0].name == name then Some(0)
    else match FindByName(conns[1..], name)
         case None => None
         case Some(i) => Some(i + 1)
  }

  /** The names after one `enable(name)`. */
  function AfterEnable(names: seq<string>, name: string): (r: seq<string>)
    ensures name in r
    ensures names <= r && |r| <= |names| + 1
    ensures name in names ==> r == names
    ensures Distinct(names) ==> Distinct(r)
  {
    if name in names then names else names + [name]
  }

  /** The names after `enable` has been called with each of `calls`, in order. */
  function AfterEnables(names: seq<string>, calls: seq<string>): (r: seq<string>)
    ensures names <= r
    ensures forall n :: n in calls ==> n in r
    ensures forall n :: n in r ==> n in names || n in calls
    ensures Distinct(names) ==> Distinct(r)
    decreases |calls|
  {
    if calls == [] then names
    else AfterEnables(AfterEnable(names, calls[0]), calls[1..])
  }

  class Keymaster {
    var enabled: seq<Connection>

    /** The registry never holds two connections with the same name. */
    ghost predicate Valid()
      reads this
    {
      Distinct(Names(enabled))
    }

    constructor ()
      ensures enabled == [] && Valid()
    {
      enabled := [];
    }

    /** `getConnectionByName`: the first enabled connection with that name, if any. */
    function GetConnectionByName(name: string): (r: Option<Connection>)
      reads this
      ensures r.None? <==> name !in Names(enabled)
      ensures r.Some? ==>
        r.value.name == name &&
        exists i :: 0 <= i < |enabled| && enabled[i] == r.value &&
          forall j :: 0 <= j < i ==> enabled[j].name != name
    {
      match FindByName(enabled, name)
      case None => None
      case Some(i) => Some(enabled[i])
    }

    /** `createConnection`: appends a new connection for `name`; the others keep their order. */
    method CreateConnection(name: string)
      modifies this
      ensures |enabled| == |old(enabled)| + 1
      ensures enabled[..|old(enabled)|] == old(enabled)
      ensures fresh(enabled[|enabled| - 1])
      ensures enabled[|enabled| - 1].name == name
      ensures enabled[|enabled| - 1].State() == Initial
      ensures Names(enabled) == Names(old(enabled)) + [name]
    {
      var conn := new Connection(name);
      enabled := enabled + [conn];
      assert enabled[..|old(enabled)|] == old(enabled);
    }

    /** `enable`: creates a connection only when none has that name, so `Valid` is kept. */
    method Enable(name: string)
      modifies this
      ensures Names(enabled) == AfterEnable(old(Names(enabled)), name)
      ensures name in old(Names(enabled)) ==> enabled == old(enabled)
      ensures name !in old(Names(enabled)) ==>
        |enabled| == |old(enabled)| + 1 && enabled[..|old(enabled)|] == old(enabled) &&
        fresh(enabled[|enabled| - 1]) && enabled[|enabled| - 1].name == name
      ensures old(Valid()) ==> Valid()
    {
      var existing := GetConnectionByName(name);
      if existing.None? {
        CreateConnection(name);
      }
    }
  }
}
