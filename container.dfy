/**
 * The mutable container builder the compiler passes work on: definitions by
 * id and aliases by id, changed in place by `register`, `addMethodCall`,
 * `setArgument`, `setAlias`, `registerAliasForArgument` and `removeDefinition`.
 */
module Container {
  import opened Definitions

  class ContainerBuilder {
    var definitions: map<string, Definition>
    var aliases: map<string, string>

    constructor (initial: Snapshot)
      ensures State() == initial
    {
      definitions := initial.definitions;
      aliases := initial.aliases;
    }

    /** The abstract value of the container. */
    function State(): Snapshot
      reads this
    {
      Snapshot(definitions, aliases)
    }

    predicate Has(id: string)
      reads this
    {
      State().Has(id)
    }

    method Register(id: string, def: Definition)
      modifies this
      ensures State() == old(State()).Register(id, def)
    {
      definitions := definitions[id := def];
      aliases := aliases - {id};
    }

    /** Symfony's `getDefinition` fails on an unknown id, so the id must be registered. */
    method AddMethodCall(id: string, call: MethodCall)
      requires id in definitions
      modifies this
      ensures State() == old(State()).AddMethodCall(id, call)
      ensures definitions[id].calls == old(definitions[id].calls) + [call]
    {
      definitions := definitions[id := definitions[id].AddCall(call)];
    }

    method SetArgument(id: string, name: string, value: Value)
      requires id in definitions
      modifies this
      ensures State() == old(State()).SetArgument(id, name, value)
    {
      definitions := definitions[id := definitions[id].WithNamed(name, value)];
    }

    /** Symfony refuses an alias that names itself. */
    method SetAlias(alias: string, id: string)
      requires alias != id
      modifies this
      ensures State() == old(State()).SetAlias(alias, id)
    {
      definitions := definitions - {alias};
      aliases := aliases[alias := id];
    }

    /**
     * `registerAliasForArgument($id, $type, $name)` for a name that is already
     * a camel-case identifier: the alias `"<type> $<name>"` pointing at `$id`.
     */
    method RegisterAliasForArgument(id: string, typeName: string, name: string)
      requires ArgumentAlias(typeName, name) != id
      modifies this
      ensures State() == old(State()).SetAlias(ArgumentAlias(typeName, name), id)
    {
      SetAlias(ArgumentAlias(typeName, name), id);
    }

    method RemoveDefinition(id: string)
      modifies this
      ensures State() == old(State()).RemoveDefinition(id)
    {
      definitions := definitions - {id};
    }
  }

  /**
   * The alias `registerAliasForArgument($id, $type, $name)` creates:
   * `"<type> $<name>"`, pointing at `$id`.
   */
  function ArgumentAlias(typeName: string, name: string): string {
    typeName + " $" + name
  }
}
