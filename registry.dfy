/** The handler registry: a map from handler-type name to an entry holding
    a factory and, per URI, the list of relative paths mapped to it. Lookups
    go through `operator[]`, so they insert an empty entry for a new name. */
module Registry {
  import opened Common
  import opened RequestHandlerInterface

  /** `RegEntry`: the factory (null as `None`) and the URI map. */
  datatype RegEntry = RegEntry(factory: Option<RequestHandlerFactory>, uriMap: map<string, seq<string>>)

  /** A value-initialised entry: null factory, no URIs. */
  const EmptyEntry: RegEntry := RegEntry(None, map[])

  /** What `operator[]` finds for `name`, present or not. */
  function EntryOf(reg: map<string, RegEntry>, name: string): (e: RegEntry)
    ensures name in reg ==> e == reg[name]
    ensures name !in reg ==> e == EmptyEntry
  {
    if name in reg then reg[name] else EmptyEntry
  }

  /** The paths mapped to `uri`, empty when there are none. */
  function PathsOf(uriMap: map<string, seq<string>>, uri: string): (ps: seq<string>)
    ensures uri in uriMap ==> ps == uriMap[uri]
    ensures uri !in uriMap ==> ps == []
  {
    if uri in uriMap then uriMap[uri] else []
  }

  /** The registry after `operator[](name)`: `name` is present and keeps its
      entry, every other entry is as it was. */
  function Touched(reg: map<string, RegEntry>, name: string): (r: map<string, RegEntry>)
    ensures r.Keys == reg.Keys + {name}
    ensures r[name] == EntryOf(reg, name)
    ensures forall n :: n in reg ==> r[n] == reg[n]
  {
    reg[name := EntryOf(reg, name)]
  }

  /** The registry after `register_handler(name, factory)`: a fresh entry
      with that factory and no URI mappings; other names untouched. */
  function Registered(reg: map<string, RegEntry>, name: string, factory: RequestHandlerFactory)
    : (r: map<string, RegEntry>)
    ensures r.Keys == reg.Keys + {name}
    ensures r[name].factory == Some(factory) && r[name].uriMap == map[]
    ensures forall n :: n in reg && n != name ==> r[n] == reg[n]
  {
    reg[name := RegEntry(Some(factory), map[])]
  }

  /** The registry after `register_mapping(name, uri, relPath)`: `relPath` is
      appended to the list for `uri` under `name`, creating what is missing;
      the factory, the other URIs and the other names are untouched. */
  function Mapped(reg: map<string, RegEntry>, name: string, uri: string, relPath: string)
    : (r: map<string, RegEntry>)
    ensures r.Keys == reg.Keys + {name}
    ensures r[name].factory == EntryOf(reg, name).factory
    ensures r[name].uriMap.Keys == EntryOf(reg, name).uriMap.Keys + {uri}
    ensures r[name].uriMap[uri] == PathsOf(EntryOf(reg, name).uriMap, uri) + [relPath]
    ensures forall u :: u in EntryOf(reg, name).uriMap && u != uri ==>
      r[name].uriMap[u] == EntryOf(reg, name).uriMap[u]
    ensures forall n :: n in reg && n != name ==> r[n] == reg[n]
  {
    var e := EntryOf(reg, name);
    reg[name := e.(uriMap := e.uriMap[uri := PathsOf(e.uriMap, uri) + [relPath]])]
  }

  /** `std::string` ordering: lexicographic by character, a proper prefix
      first. */
  predicate StrLess(a: string, b: string)
    decreases |a|
  {
    if |a| == 0 then |b| > 0
    else if |b| == 0 then false
    else if a[0] != b[0] then a[0] < b[0]
    else StrLess(a[1..], b[1..])
  }

  lemma {:induction false} StrLessIrreflexive(a: string)
    ensures !StrLess(a, a)
    decreases |a|
  {
    if |a| > 0 {
      StrLessIrreflexive(a[1..]);
    }
  }

  lemma {:induction false} StrLessTransitive(a: string, b: string, c: string)
    requires StrLess(a, b) && StrLess(b, c)
    ensures StrLess(a, c)
    decreases |a|
  {
    if |a| > 0 && a[0] == b[0] && b[0] == c[0] {
      StrLessTransitive(a[1..], b[1..], c[1..]);
    }
  }

  lemma {:induction false} StrLessTotal(a: string, b: string)
    requires a != b
    ensures StrLess(a, b) || StrLess(b, a)
    decreases |a|
  {
    if |a| > 0 && |b| > 0 && a[0] == b[0] {
      StrLessTotal(a[1..], b[1..]);
    }
  }

  /** Strictly ascending, hence without repeats. */
  predicate Ascending(s: seq<string>) {
    forall i, j :: 0 <= i < j < |s| ==> StrLess(s[i], s[j])
  }

  lemma AscendingDistinct(s: seq<string>)
    requires Ascending(s)
    ensures forall i, j :: 0 <= i < j < |s| ==> s[i] != s[j]
  {
    forall i, j | 0 <= i < j < |s|
      ensures s[i] != s[j]
    {
      if s[i] == s[j] {
        StrLessIrreflexive(s[i]);
      }
    }
  }

  /** The least key of a non-empty set of names. */
  method LeastOf(keys: set<string>) returns (k: string)
    requires keys != {}
    ensures k in keys && forall x :: x in keys && x != k ==> StrLess(k, x)
  {
    k :| k in keys;
    var todo := keys - {k};
    while todo != {}
      invariant todo <= keys && k in keys && k !in todo
      invariant forall x :: x in keys && x !in todo && x != k ==> StrLess(k, x)
      decreases |todo|
    {
      var x :| x in todo;
      if StrLess(x, k) {
        forall y | y in keys && y !in todo && y != k
          ensures StrLess(x, y)
        {
          StrLessTransitive(x, k, y);
        }
        k := x;
      } else {
        StrLessTotal(k, x);
      }
      todo := todo - {x};
    }
  }

  class Registry {
    var registry: map<string, RegEntry>

    /** The singleton starts empty. */
    constructor ()
      ensures registry == map[]
    {
      registry := map[];
    }

    /** `get_factory`: the most recently registered factory, or `None` (null)
        for a name never registered; the name is inserted if absent. */
    method GetFactory(name: string) returns (factory: Option<RequestHandlerFactory>)
      modifies this
      ensures registry == Touched(old(registry), name)
      ensures factory == EntryOf(old(registry), name).factory
    {
      if name !in registry {
        registry := registry[name := EmptyEntry];
      }
      factory := registry[name].factory;
    }

    /** `get_map`: a copy of the URI map; the name is inserted if absent. */
    method GetMap(name: string) returns (uriMap: map<string, seq<string>>)
      modifies this
      ensures registry == Touched(old(registry), name)
      ensures uriMap == EntryOf(old(registry), name).uriMap
    {
      if name !in registry {
        registry := registry[name := EmptyEntry];
      }
      uriMap := registry[name].uriMap;
    }

    /** `get_types`: every name, once, in the map's ascending key order. The
        ordered traversal of `std::map` is taken one least remaining key at a
        time. */
    method GetTypes() returns (out: seq<string>)
      ensures Ascending(out)
      ensures forall k :: k in registry <==> k in out
    {
      out := [];
      var rest := registry.Keys;
      while rest != {}
        invariant rest <= registry.Keys
        invariant forall k :: k in registry <==> k in rest || k in out
        invariant forall k :: k in rest ==> k !in out
        invariant Ascending(out)
        invariant forall i, k :: 0 <= i < |out| && k in rest ==> StrLess(out[i], k)
        decreases |rest|
      {
        var k := LeastOf(rest);
        out := out + [k];
        rest := rest - {k};
      }
    }

    /** `register_handler`. */
    method RegisterHandler(name: string, factory: RequestHandlerFactory)
      modifies this
      ensures registry == Registered(old(registry), name, factory)
    {
      registry := registry[name := RegEntry(Some(factory), map[])];
    }

    /** `register_mapping`. */
    method RegisterMapping(name: string, uri: string, relPath: string)
      modifies this
      ensures registry == Mapped(old(registry), name, uri, relPath)
    {
      var entry := if name in registry then registry[name] else EmptyEntry;
      var paths := if uri in entry.uriMap then entry.uriMap[uri] else [];
      registry := registry[name := entry.(uriMap := entry.uriMap[uri := paths + [relPath]])];
    }
  }

  /** Looking a name up after registering it gives that factory, and nothing
      is added beyond the name. */
  lemma RegisterThenLookup(reg: map<string, RegEntry>, name: string, factory: RequestHandlerFactory)
    ensures EntryOf(Registered(reg, name, factory), name).factory == Some(factory)
    ensures Touched(Registered(reg, name, factory), name) == Registered(reg, name, factory)
  {
  }

  /** Registering a handler discards the paths mapped under its name before;
      mapping after registering keeps the factory. */
  lemma RegisterResetsMappings(reg: map<string, RegEntry>, name: string, uri: string,
                               relPath: string, factory: RequestHandlerFactory)
    ensures Registered(Mapped(reg, name, uri, relPath), name, factory)[name].uriMap == map[]
    ensures Mapped(Registered(reg, name, factory), name, uri, relPath)[name].factory == Some(factory)
    ensures Mapped(Registered(reg, name, factory), name, uri, relPath)[name].uriMap == map[uri := [relPath]]
  {
    var r := Registered(reg, name, factory);
    assert EntryOf(r, name).uriMap == map[];
    assert PathsOf(map[], uri) + [relPath] == [relPath];
  }

  /** Two mappings of one URI keep their order. */
  lemma MappingsInOrder(reg: map<string, RegEntry>, name: string, uri: string, p: string, q: string)
    ensures Mapped(Mapped(reg, name, uri, p), name, uri, q)[name].uriMap[uri]
         == PathsOf(EntryOf(reg, name).uriMap, uri) + [p, q]
  {
  }

  /** A name never registered looks up to null, as the unit test expects of
      a fresh registry. */
  lemma FreshLookupIsNull(name: string)
    ensures EntryOf(map[], name).factory == None
  {
  }
}
