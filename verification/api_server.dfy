/** The pure helpers of `dashboard/api/server.py`: the secret-free component
    config, datetime serialisation, and the component listing. The FastAPI
    routing and the server thread are left out.
 */
module ApiServer {
  import opened Wrappers
  import opened Text
  import opened Values
  import opened Calendar
  import opened Iso
  import PluginManager

  /** Keys never shown, compared after lower-casing. */
  const SecretKeys: set<string> := {"api_key", "password", "token", "secret", "credentials", "client_secret"}

  /** `_safe_component_config`: a falsy config gives {}; otherwise every key
      whose lower-case form is a secret is dropped and the rest kept. */
  function SafeComponentConfig(config: Option<Dict>): (r: Dict)
    ensures config.None? ==> r == map[]
    ensures forall k | k in r :: Lower(k) !in SecretKeys
    ensures config.Some? ==> forall k | k in r :: k in config.value && r[k] == config.value[k]
    ensures config.Some? ==> forall k | k in config.value && Lower(k) !in SecretKeys :: k in r
  {
    match config
    case None => map[]
    case Some(c) => map k | k in c && Lower(k) !in SecretKeys :: c[k]
  }

  /** A secret key is dropped whatever its case. */
  lemma {:induction false} SecretDroppedInAnyCase(config: Dict, key: string)
    requires key in config && Lower(key) == "password"
    ensures key !in SafeComponentConfig(Some(config))
  {
  }

  /** Filtering twice is filtering once. */
  lemma {:induction false} SafeConfigIdempotent(config: Dict)
    ensures SafeComponentConfig(Some(SafeComponentConfig(Some(config)))) == SafeComponentConfig(Some(config))
  {
  }

  /** `_serialize_datetime`: None stays None; a naive datetime is taken as
      UTC; the text is `isoformat()`. */
  function SerializeDatetime(dt: Option<Stamp>): (r: Option<string>)
    ensures dt.None? <==> r.None?
    ensures dt.Some? && dt.value.offset.None? ==> r == Some(IsoDateTime(dt.value.local) + "+00:00")
  {
    match dt
    case None => None
    case Some(st) =>
      OffsetOfZero();
      Some(IsoFormatStamp(if st.offset.None? then st.(offset := Some(0)) else st))
  }

  /** Serialised datetimes read back as aware datetimes at the same wall
      clock, with UTC for naive ones. */
  lemma {:induction false} SerializeReadsBack(st: Stamp)
    requires DateOf(st.local).year <= 9999
    requires st.offset.Some? ==> -1440 < st.offset.value < 1440
    ensures FromIsoFormat(SerializeDatetime(Some(st)).value) == Some(Stamp(st.local, Some(st.offset.GetOr(0))))
  {
    if st.offset.None? {
      StampRoundTrip(st.(offset := Some(0)));
    } else {
      StampRoundTrip(st);
    }
  }

  /** One entry of `/api/components`. */
  datatype ComponentInfo = ComponentInfo(name: string, enabled: Value, config: Dict)

  /** The entry for one registered name: a dict config reports its "enable"
      (True when absent) and its safe config; anything else is enabled with
      an empty config. */
  function InfoFor(name: string, compConfig: Dict): (r: ComponentInfo)
    ensures r.name == name
    ensures (name !in compConfig || !compConfig[name].VObj? || "enable" !in compConfig[name].fields) ==> r.enabled == VBool(true)
    ensures name in compConfig && compConfig[name].VObj? && "enable" in compConfig[name].fields ==>
      r.enabled == compConfig[name].fields["enable"]
  {
    match GetOpt(compConfig, name)
    case VObj(c) => ComponentInfo(name, Get(c, "enable", VBool(true)), SafeComponentConfig(Some(c)))
    case _ => ComponentInfo(name, VBool(true), map[])
  }

  /** One entry per registered name, in registration order. */
  function InfosFor(names: seq<string>, compConfig: Dict): (r: seq<ComponentInfo>)
    ensures |r| == |names| && forall i | 0 <= i < |names| :: r[i] == InfoFor(names[i], compConfig)
  {
    if |names| == 0 then [] else [InfoFor(names[0], compConfig)] + InfosFor(names[1..], compConfig)
  }

  /** `list_components`: `data.get("components") or {}`, then one entry per
      registered name. A truthy "components" that is not a dict has no
      `.get` (AttributeError), which is called only once the loop reaches a
      registered name. */
  function ListComponents(data: Dict, names: seq<string>): (r: Outcome<seq<ComponentInfo>>)
    ensures r.Ok? ==> |r.value| == |names| && forall i | 0 <= i < |names| :: r.value[i].name == names[i]
    ensures r.Raised? <==> |names| > 0 && Truthy(GetOpt(data, "components")) && !GetOpt(data, "components").VObj?
    ensures r.Raised? ==> r.error == AttributeError
    ensures GetOpt(data, "components").VObj? ==> r == Ok(InfosFor(names, GetOpt(data, "components").fields))
    ensures !Truthy(GetOpt(data, "components")) ==>
      r.Ok? && forall i | 0 <= i < |names| :: r.value[i] == ComponentInfo(names[i], VBool(true), map[])
  {
    var comps := GetOpt(data, "components");
    if !Truthy(comps) then Ok(InfosFor(names, map[]))
    else match comps
      case VObj(c) => Ok(InfosFor(names, c))
      case _ => if |names| == 0 then Ok([]) else Raised(AttributeError)
  }

  /** A component without "enable" is listed as enabled, but the plugin
      manager does not build it. */
  lemma {:induction false} EnableDefaultsDisagree(reg: PluginManager.Registry, name: string, c: Dict)
    requires "enable" !in c && name in reg
    ensures InfoFor(name, map[name := VObj(c)]).enabled == VBool(true)
    ensures PluginManager.CreateComponent(reg, name, Some(c)).None?
  {
  }
}
