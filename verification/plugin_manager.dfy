/** The component registry of `dashboard/core/plugin_manager.py`. Package
    discovery and imports are left out: a registry is what the plugins'
    `register_components` calls leave behind.
 */
module PluginManager {
  import opened Wrappers
  import opened Values

  /** A component class: its `name` attribute and an identity. */
  datatype ComponentClass = ComponentClass(name: string, id: nat)

  type Registry = map<string, ComponentClass>

  /** A component instance: its class and the config it was built with. */
  datatype Component = Component(cls: ComponentClass, config: Dict)

  /** `register_component`: keyed by the class's name. */
  function RegisterComponent(reg: Registry, cls: ComponentClass): (r: Registry)
    ensures cls.name in r && r[cls.name] == cls
    ensures forall n | n in reg && n != cls.name :: n in r && r[n] == reg[n]
    ensures r.Keys == reg.Keys + {cls.name}
  {
    reg[cls.name := cls]
  }

  /** Registering a sequence of classes in order. */
  function RegisterAll(reg: Registry, classes: seq<ComponentClass>): (r: Registry)
    decreases |classes|
  {
    if |classes| == 0 then reg
    else RegisterAll(RegisterComponent(reg, classes[0]), classes[1..])
  }

  /** The last class registered under a name is the one kept. */
  lemma {:induction false} LastRegistrationWins(reg: Registry, classes: seq<ComponentClass>, i: nat)
    requires i < |classes|
    requires forall j | i < j < |classes| :: classes[j].name != classes[i].name
    ensures var r := RegisterAll(reg, classes); classes[i].name in r && r[classes[i].name] == classes[i]
    decreases |classes|
  {
    if i == 0 {
      KeptAfter(RegisterComponent(reg, classes[0]), classes[1..], classes[0]);
    } else {
      LastRegistrationWins(RegisterComponent(reg, classes[0]), classes[1..], i - 1);
    }
  }

  lemma {:induction false} KeptAfter(reg: Registry, classes: seq<ComponentClass>, cls: ComponentClass)
    requires cls.name in reg && reg[cls.name] == cls
    requires forall j | 0 <= j < |classes| :: classes[j].name != cls.name
    ensures var r := RegisterAll(reg, classes); cls.name in r && r[cls.name] == cls
    decreases |classes|
  {
    if |classes| > 0 {
      KeptAfter(RegisterComponent(reg, classes[0]), classes[1..], cls);
    }
  }

  /** `create_component(app, name, config)`: only registered names, and only
      when the config is non-empty and its "enable" (default False) is
      truthy. */
  function CreateComponent(reg: Registry, name: string, config: Option<Dict>): (r: Option<Component>)
    ensures name !in reg ==> r.None?
    ensures r.Some? <==> name in reg && config.Some? && Truthy(Get(config.value, "enable", VBool(false)))
    ensures r.Some? ==> r.value == Component(reg[name], config.value)
  {
    if name !in reg then None
    else match config
      case None => None
      case Some(c) =>
        if |c| == 0 || !Truthy(Get(c, "enable", VBool(false))) then None
        else Some(Component(reg[name], c))
  }

  /** A config that says nothing about "enable" builds nothing. */
  lemma {:induction false} DisabledByDefault(reg: Registry, name: string, config: Dict)
    requires "enable" !in config
    ensures CreateComponent(reg, name, Some(config)) == None
  {
  }
}
