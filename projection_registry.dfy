/** The immutable projection registry: a name-keyed map built once from a
    definition list, in the manner of a JavaScript `Map` built from entries
    (keys kept in first-insertion order, a later entry with the same key
    replacing the value). */
module ProjectionRegistry {
  import opened Base
  import opened ProjectionTypes

  datatype Registry = Registry(keys: seq<ProjectionName>, entries: map<ProjectionName, Contract>)

  /** Keys listed once each, and exactly the keys of the map. */
  ghost predicate Valid(r: Registry) {
    && (forall i, j :: 0 <= i < j < |r.keys| ==> r.keys[i] != r.keys[j])
    && (forall n :: n in r.entries <==> n in r.keys)
  }

  /** One `Map.set` during construction. */
  function Put(r: Registry, c: Contract): Registry {
    if c.name in r.entries then Registry(r.keys, r.entries[c.name := c])
    else Registry(r.keys + [c.name], r.entries[c.name := c])
  }

  function NameFilter(name: ProjectionName): Contract -> bool {
    (c: Contract) => c.name == name
  }

  /** `new ProjectionRegistry(definitions)` */
  function Build(defs: seq<Contract>): (r: Registry)
    ensures Valid(r)
    ensures forall n :: n in r.entries <==> exists i :: 0 <= i < |defs| && defs[i].name == n
  {
    if |defs| == 0 then Registry([], map[])
    else
      var front := defs[..|defs| - 1];
      assert forall i :: 0 <= i < |front| ==> front[i] == defs[i];
      Put(Build(front), defs[|defs| - 1])
  }

  /** With duplicate names, the entry is the last definition of that name. */
  lemma {:induction false} LaterDefinitionWins(defs: seq<Contract>, name: ProjectionName)
    requires name in Build(defs).entries
    ensures LastWhere(defs, NameFilter(name)).Some?
    ensures Build(defs).entries[name] == LastWhere(defs, NameFilter(name)).value
  {
    var front := defs[..|defs| - 1];
    var last := defs[|defs| - 1];
    assert defs == front + [last];
    LastWhereAppend(front, last, NameFilter(name));
    if last.name != name {
      LaterDefinitionWins(front, name);
    }
  }

  /** `get`: the registered contract, or a raise naming the projection. */
  function Get(r: Registry, name: ProjectionName): (res: Outcome<Contract>)
    ensures res.Ok? <==> name in r.entries
    ensures res.Ok? ==> res.value == r.entries[name]
    ensures res.Err? ==> res.message == "Unknown projection: " + NameText(name)
  {
    if name in r.entries then Ok(r.entries[name]) else Err("Unknown projection: " + NameText(name))
  }

  /** `list`: each registered name once, exactly the names of the definitions. */
  function List(r: Registry): seq<ProjectionName> {
    r.keys
  }

  lemma ListIsNamesOnce(defs: seq<Contract>)
    ensures var names := List(Build(defs));
      && (forall i, j :: 0 <= i < j < |names| ==> names[i] != names[j])
      && (forall n :: n in names <==> exists i :: 0 <= i < |defs| && defs[i].name == n)
  {
  }

  /** With no definitions (the shipped list is empty) every `get` raises. */
  lemma EmptyRegistryRaises(name: ProjectionName)
    ensures Get(Build([]), name) == Err("Unknown projection: " + NameText(name))
  {
  }
}
