/** The older handler registry: a map from handler-type name to factory,
    whose lookup inserts a null entry for a new name. */
module RequestHandlerRegistry {
  import opened Common
  import opened RequestHandlerInterface

  /** What `registry[name]` yields: the stored factory, or null (`None`). */
  function Lookup(reg: map<string, Option<RequestHandlerFactory>>, name: string)
    : (f: Option<RequestHandlerFactory>)
    ensures name in reg ==> f == reg[name]
    ensures name !in reg ==> f == None
  {
    if name in reg then reg[name] else None
  }

  class RequestHandlerRegistry {
    var registry: map<string, Option<RequestHandlerFactory>>

    constructor ()
      ensures registry == map[]
    {
      registry := map[];
    }

    /** `get_handler`: the stored factory, or null after inserting a null
        entry for a new name. */
    method GetHandler(name: string) returns (factory: Option<RequestHandlerFactory>)
      modifies this
      ensures factory == Lookup(old(registry), name)
      ensures registry == old(registry)[name := Lookup(old(registry), name)]
    {
      if name !in registry {
        registry := registry[name := None];
      }
      factory := registry[name];
    }

    /** `register_handler`: overwrite the factory stored for `name`. */
    method RegisterHandler(name: string, factory: RequestHandlerFactory)
      modifies this
      ensures registry == old(registry)[name := Some(factory)]
    {
      registry := registry[name := Some(factory)];
    }
  }

  /** After registering, the lookup returns the new factory; every other
      name looks up as before. */
  lemma RegisterThenGet(reg: map<string, Option<RequestHandlerFactory>>, name: string,
                        factory: RequestHandlerFactory, other: string)
    ensures Lookup(reg[name := Some(factory)], name) == Some(factory)
    ensures other != name ==> Lookup(reg[name := Some(factory)], other) == Lookup(reg, other)
  {
  }

  /** A client that registers and then looks up gets its factory back. */
  method RegisterAndGet(r: RequestHandlerRegistry, name: string, factory: RequestHandlerFactory)
    returns (got: Option<RequestHandlerFactory>)
    modifies r
    ensures got == Some(factory)
    ensures r.registry == old(r.registry)[name := Some(factory)]
  {
    r.RegisterHandler(name, factory);
    got := r.GetHandler(name);
  }
}
