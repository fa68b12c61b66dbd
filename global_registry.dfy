/** The process-wide registry of the Django integration: created on first use, handed out
    unchanged afterwards, and dropped by `shutdown_models` after stopping its models. The
    module-level `_registry` variable is the one field of a `Globals` object. */
module DjangoRegistry {
  import opened Values
  import opened Manager
  import opened Discovery

  class Globals {
    /** `_registry`. */
    var registry: ModelRegistry?
    ghost var Repr: set<object>

    /** The registry, when there is one, is valid and owned. */
    ghost predicate Valid()
      reads this, Repr
    {
      && this in Repr
      && (registry != null ==>
            registry in Repr && registry.Repr <= Repr && this !in registry.Repr && registry.Valid())
    }

    /** Importing the module: no registry yet. */
    constructor()
      ensures Valid() && fresh(Repr) && registry == null
    {
      registry := null;
      Repr := {this};
    }

    /** `get_registry`: the first call creates an empty registry; later calls return that
        same registry, untouched, until `shutdown_models`. */
    method GetRegistry() returns (r: ModelRegistry)
      requires Valid()
      modifies this
      ensures Valid() && fresh(Repr - old(Repr))
      ensures registry == r
      ensures old(registry) != null ==> r == old(registry) && Repr == old(Repr)
      ensures old(registry) == null ==> fresh(r) && r.managers == [] && r.configs == []
    {
      if registry == null {
        var created := new ModelRegistry();
        registry := created;
        Repr := Repr + created.Repr;
      }
      r := registry;
    }

    /** `get_model(name)`: `get_registry().get(name)`, so a name nobody registered is an
        error, and always so right after start-up or a shutdown. */
    method GetModel(name: string) returns (m: Result<ModelManager, RegistryError>)
      requires Valid()
      modifies this
      ensures Valid() && fresh(Repr - old(Repr)) && registry != null
      ensures m == registry.Get(name)
      ensures old(registry) != null ==> registry == old(registry)
      ensures old(registry) == null ==> m == Err(NotRegistered(name))
    {
      var r := GetRegistry();
      m := r.Get(name);
    }

    /** `shutdown_models`: stops every running model of the registry, if there is one, and
        forgets the registry; without one it does nothing. */
    method ShutdownModels()
      requires Valid()
      modifies Repr
      ensures Valid() && Repr == old(Repr) && registry == null
      ensures old(registry) != null ==>
                old(registry).managers == old(registry.managers) &&
                forall i :: 0 <= i < |old(registry.managers)| ==>
                  && (old(registry.managers[i].1.IsRunning()) ==> !old(registry).managers[i].1.isStarted)
                  && (old(registry.managers[i].1.IsRunning()) ==>
                        ModelManager.Halted(old(registry.managers[i].1.process), old(registry.managers[i].1.process.alive),
                                            old(registry.managers[i].1.process.log), 5.0))
                  && (!old(registry.managers[i].1.IsRunning()) ==>
                        unchanged(old(registry).managers[i].1) && unchanged(old(registry).managers[i].1.Repr))
      ensures old(registry) == null ==> unchanged(Repr)
    {
      if registry != null {
        registry.StopAll(5.0);
        registry := null;
      }
    }

    /** After `shutdown_models`, `get_registry` yields a new, empty registry. */
    method ShutdownThenGet() returns (r: ModelRegistry)
      requires Valid()
      modifies Repr
      ensures Valid() && registry == r
      ensures fresh(r) && r.managers == [] && r.configs == []
    {
      ShutdownModels();
      r := GetRegistry();
    }
  }
}
