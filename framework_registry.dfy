/** framework_registry.go: the map from framework id to the framework the master last had
    registered under it, shared by the master poller (writer) and the slave pollers (readers).
    The mutex that serialises access is not modelled: calls happen one at a time. */
module Registry {
  import opened MesosTypes

  /** The error text Get reports for an id that has no entry (the misspelling is the source's). */
  function UnknownFramework(id: string): (message: string)
    ensures |message| == 18 + |id| + 1
    ensures message[..18] == "Unknown framwork '" && message[18..18 + |id|] == id && message[18 + |id|] == '\''
  {
    "Unknown framwork '" + id + "'"
  }

  /** Every entry is filed under its own framework id. */
  ghost predicate FiledById(registry: map<string, Framework>) {
    forall id :: id in registry ==> registry[id].id == id
  }

  class FrameworkRegistry {
    var registry: map<string, Framework>

    ghost predicate Valid()
      reads this
    {
      FiledById(registry)
    }

    /** NewFrameworkRegistry: an empty registry. */
    constructor ()
      ensures Valid() && registry == map[]
    {
      registry := map[];
    }

    /** The whole current mapping; nothing is changed. */
    method All() returns (frameworks: map<string, Framework>)
      ensures frameworks == registry
    {
      frameworks := registry;
    }

    /** The framework registered under `id`, or the empty framework and an error. */
    method Get(id: string) returns (framework: Framework, err: Option<string>)
      ensures id in registry ==> framework == registry[id] && err == None
      ensures id !in registry ==> framework == EmptyFramework && err == Some(UnknownFramework(id))
    {
      if id in registry {
        framework, err := registry[id], None;
      } else {
        framework, err := EmptyFramework, Some(UnknownFramework(id));
      }
    }

    /** Files `framework` under its id, replacing what was there; other ids keep their entries. */
    method Set(framework: Framework)
      requires Valid()
      modifies this
      ensures Valid()
      ensures registry == old(registry)[framework.id := framework]
    {
      registry := registry[framework.id := framework];
    }
  }
}
