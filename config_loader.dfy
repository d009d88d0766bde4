/**
 Loading of the YAML configuration file into the flat configuration dictionary
 that the rest of the program (and the device/MQTT manager) reads.

 The parsed YAML document is taken as a `Value`; reading the file and parsing
 it are not modelled. The timestamp used for the fallback MQTT client id is a
 parameter (the decimal text of the current time).
 */
module ConfigLoader {
  import opened Wrappers
  import opened Values

  /**
   The flat configuration dictionary that read_config builds, as a record: one
   field per key (the dictionary key is given beside each). Every key but
   `devices` is always set; `devices` is absent (`None`) unless the file gives
   a value other than `None`.
   */
  datatype Config = Config(
    daemonMode: Value,                     // "daemon_mode"
    updateInterval: Value,                 // "update_interval"
    selfDiscovery: Value,                  // "self_discovery"
    bindToIp: Value,                       // "bind_to_ip"
    mqttHost: Value,                       // "mqtt_host"
    mqttPort: Value,                       // "mqtt_port"
    mqttUser: Value,                       // "mqtt_user"
    mqttPassword: Value,                   // "mqtt_password"
    mqttClientId: Value,                   // "mqtt_client_id"
    mqttTopicPrefix: Value,                // "mqtt_topic_prefix"
    mqttAutoDiscoveryTopic: Value,         // "mqtt_auto_discovery_topic"
    mqttAutoDiscoveryTopicRetain: Value,   // "mqtt_auto_discovery_topic_retain"
    devices: Option<Value>                 // "devices"
  )

  // Sections and keys of the YAML file.
  const ServiceSection := "service"
  const DevicesSection := "devices"
  const DaemonModeKey := "daemon_mode"
  const UpdateIntervalKey := "update_interval"
  const SelfDiscoveryKey := "self_discovery"
  const BindToIpKey := "bind_to_ip"
  const MqttSection := "mqtt"
  const HostKey := "host"
  const PortKey := "port"
  const UserKey := "user"
  const PasswdKey := "passwd"
  const ClientIdKey := "client_id"
  const TopicPrefixKey := "topic_prefix"
  const AutoDiscoveryTopicKey := "auto_discovery_topic"
  const AutoDiscoveryTopicRetainKey := "auto_discovery_topic_retain"

  /** Keys of the two sections that are read by plain indexing, in the order they are read. */
  const RequiredServiceKeys: seq<string> := [DaemonModeKey, UpdateIntervalKey, SelfDiscoveryKey]
  const RequiredMqttKeys: seq<string> := [ClientIdKey, TopicPrefixKey]

  /** Generic client id, completed with the timestamp when the file gives none. */
  const ClientIdPrefix := "broadlink_to_mqtt-"

  /** Name under which the whole parsed document appears in error messages. */
  const ConfigFile := "config_file"

  /** The Python exception that loading raises. */
  datatype ConfigError =
    | TypeError(subject: string)                     // subscripting a value that is not a mapping
    | KeyError(key: string)                          // plain indexing of an absent key
    | AttributeError(subject: string, attribute: string)  // a method the value's type lacks

  /**
   The topic-prefix normalisation: a truthy prefix that does not end in `/`
   gets one appended; a falsy prefix is left as it is; a truthy prefix that is
   not a string cannot be asked `endswith("/")` and raises.
   */
  function NormalizedPrefix(p: Value): (r: Result<Value, ConfigError>)
    ensures r.Ok? <==> !Truthy(p) || p.Str?
    ensures r.Ok? && Truthy(p) ==> r.value.Str? && EndsWithSlash(r.value.s)
    ensures r.Ok? && Truthy(p) ==> r.value.s == p.s || r.value.s == p.s + "/"
    ensures !Truthy(p) || (p.Str? && EndsWithSlash(p.s)) ==> r == Ok(p)
  {
    if !Truthy(p) then Ok(p)
    else match p
      case Str(s) => if EndsWithSlash(s) then Ok(p) else Ok(Str(s + "/"))
      case Bytes(_) => Err(TypeError(TopicPrefixKey))
      case _ => Err(AttributeError(TopicPrefixKey, "endswith"))
  }

  /** Normalising a normalised prefix changes nothing. */
  lemma NormalizedPrefixIdempotent(p: Value)
    requires NormalizedPrefix(p).Ok?
    ensures NormalizedPrefix(NormalizedPrefix(p).value) == NormalizedPrefix(p)
  {
  }

  /** The client id: the file's value when it is truthy, otherwise the generic prefix and the timestamp. */
  function ClientId(fromFile: Value, timestamp: string): Value {
    if Truthy(fromFile) then fromFile else Str(ClientIdPrefix + timestamp)
  }

  /** The index of the first key of `keys` that `d` lacks, if any. */
  function FirstMissing(keys: seq<string>, d: map<string, Value>): (r: Option<nat>)
    ensures r.None? <==> forall k :: k in keys ==> k in d
    ensures r.Some? ==> r.value < |keys| && keys[r.value] !in d
    ensures r.Some? ==> forall j :: 0 <= j < r.value ==> keys[j] in d
  {
    if keys == [] then None
    else if keys[0] !in d then Some(0)
    else match FirstMissing(keys[1..], d)
      case None => None
      case Some(i) => Some(i + 1)
  }

  /** The error reading the `service` section raises, if any: it must be a mapping holding the required keys. */
  function ServiceSectionError(service: Value): Option<ConfigError> {
    if !service.Dict? then Some(TypeError(ServiceSection))
    else match FirstMissing(RequiredServiceKeys, service.entries)
      case Some(i) => Some(KeyError(RequiredServiceKeys[i]))
      case None => None
  }

  /**
   The error reading the `mqtt` section raises, if any: it must be a mapping
   (its `get` method is called first), hold the required keys, and have a
   topic prefix that can be normalised.
   */
  function MqttSectionError(mqtt: Value): Option<ConfigError> {
    if !mqtt.Dict? then Some(AttributeError(MqttSection, "get"))
    else match FirstMissing(RequiredMqttKeys, mqtt.entries)
      case Some(i) => Some(KeyError(RequiredMqttKeys[i]))
      case None =>
        match NormalizedPrefix(mqtt.entries[TopicPrefixKey])
        case Err(e) => Some(e)
        case Ok(_) => None
  }

  /**
   The error loading raises, if any: the first failing step in the order the
   file is read (the `service` section and its keys, then the `mqtt` section,
   its keys, and the topic prefix).
   */
  function FirstError(file: Value): Option<ConfigError> {
    if !file.Dict? then Some(TypeError(ConfigFile))
    else if ServiceSection !in file.entries then Some(KeyError(ServiceSection))
    else if ServiceSectionError(file.entries[ServiceSection]).Some? then ServiceSectionError(file.entries[ServiceSection])
    else if MqttSection !in file.entries then Some(KeyError(MqttSection))
    else MqttSectionError(file.entries[MqttSection])
  }

  /** What a file must satisfy to load, stated without regard to the order of the checks. */
  ghost predicate Loadable(file: Value) {
    && file.Dict?
    && ServiceSection in file.entries && file.entries[ServiceSection].Dict?
    && MqttSection in file.entries && file.entries[MqttSection].Dict?
    && (forall k :: k in RequiredServiceKeys ==> k in file.entries[ServiceSection].entries)
    && (forall k :: k in RequiredMqttKeys ==> k in file.entries[MqttSection].entries)
    && var p := file.entries[MqttSection].entries[TopicPrefixKey]; !Truthy(p) || p.Str?
  }

  /** The `devices` entry of the configuration: the file's value when present and not `None`. */
  function DevicesEntry(file: map<string, Value>): Option<Value> {
    if Get(file, DevicesSection) != Null then Some(file[DevicesSection]) else None
  }

  /** The configuration a loadable file yields, field by field. */
  function LoadedConfig(file: Value, timestamp: string): Config
    requires FirstError(file).None?
  {
    var service := file.entries[ServiceSection].entries;
    var mqtt := file.entries[MqttSection].entries;
    Config(
      daemonMode := service[DaemonModeKey],
      updateInterval := service[UpdateIntervalKey],
      selfDiscovery := service[SelfDiscoveryKey],
      bindToIp := Or(Get(service, BindToIpKey), Null),
      mqttHost := Get(mqtt, HostKey),
      mqttPort := Get(mqtt, PortKey),
      mqttUser := Get(mqtt, UserKey),
      mqttPassword := Get(mqtt, PasswdKey),
      mqttClientId := ClientId(mqtt[ClientIdKey], timestamp),
      mqttTopicPrefix := NormalizedPrefix(mqtt[TopicPrefixKey]).value,
      mqttAutoDiscoveryTopic :=
        if AutoDiscoveryTopicKey in mqtt then mqtt[AutoDiscoveryTopicKey] else Bool(false),
      mqttAutoDiscoveryTopicRetain :=
        if AutoDiscoveryTopicRetainKey in mqtt then mqtt[AutoDiscoveryTopicRetainKey] else Bool(false),
      devices := DevicesEntry(file.entries)
    )
  }

  /**
   read_config after the YAML load: reads the settings one key at a time, in
   the source's order, rewrites the topic prefix, and stops at the first
   exception.
   */
  method ReadConfig(file: Value, timestamp: string) returns (r: Result<Config, ConfigError>)
    ensures FirstError(file).Some? ==> r == Err(FirstError(file).value)
    ensures FirstError(file).None? ==> r == Ok(LoadedConfig(file, timestamp))
  {
    // Service settings
    if !file.Dict? { return Err(TypeError(ConfigFile)); }
    if ServiceSection !in file.entries { return Err(KeyError(ServiceSection)); }
    var service := file.entries[ServiceSection];
    if !service.Dict? { return Err(TypeError(ServiceSection)); }
    assert RequiredServiceKeys[0] == DaemonModeKey && RequiredServiceKeys[1] == UpdateIntervalKey;
    if DaemonModeKey !in service.entries { return Err(KeyError(DaemonModeKey)); }
    var daemonMode := service.entries[DaemonModeKey];
    if UpdateIntervalKey !in service.entries { return Err(KeyError(UpdateIntervalKey)); }
    var updateInterval := service.entries[UpdateIntervalKey];
    if SelfDiscoveryKey !in service.entries { return Err(KeyError(SelfDiscoveryKey)); }
    var selfDiscovery := service.entries[SelfDiscoveryKey];
    // What ip to bind to
    var bindToIp := Or(Get(service.entries, BindToIpKey), Null);

    // MQTT settings
    if MqttSection !in file.entries { return Err(KeyError(MqttSection)); }
    var mqtt := file.entries[MqttSection];
    if !mqtt.Dict? { return Err(AttributeError(MqttSection, "get")); }
    var host := Get(mqtt.entries, HostKey);
    var port := Get(mqtt.entries, PortKey);
    var user := Get(mqtt.entries, UserKey);
    var password := Get(mqtt.entries, PasswdKey);
    // The client id if set, otherwise a generic one made unique by the timestamp
    assert RequiredMqttKeys[0] == ClientIdKey;
    if ClientIdKey !in mqtt.entries { return Err(KeyError(ClientIdKey)); }
    var clientId := mqtt.entries[ClientIdKey];
    if !Truthy(clientId) { clientId := Str(ClientIdPrefix + timestamp); }
    if TopicPrefixKey !in mqtt.entries { return Err(KeyError(TopicPrefixKey)); }
    var topicPrefix := mqtt.entries[TopicPrefixKey];
    var autoDiscoveryTopic :=
      if AutoDiscoveryTopicKey in mqtt.entries then mqtt.entries[AutoDiscoveryTopicKey] else Bool(false);
    var autoDiscoveryTopicRetain :=
      if AutoDiscoveryTopicRetainKey in mqtt.entries then mqtt.entries[AutoDiscoveryTopicRetainKey] else Bool(false);

    // A truthy topic prefix ends in "/"
    if Truthy(topicPrefix) {
      match topicPrefix
      case Str(s) =>
        if !EndsWithSlash(s) { topicPrefix := Str(s + "/"); }
      case Bytes(_) =>
        return Err(TypeError(TopicPrefixKey));
      case _ =>
        return Err(AttributeError(TopicPrefixKey, "endswith"));
    }

    // Devices
    var devices: Option<Value> := None;
    if Get(file.entries, DevicesSection) != Null {
      devices := Some(file.entries[DevicesSection]);
    }
    return Ok(Config(daemonMode, updateInterval, selfDiscovery, bindToIp,
                     host, port, user, password, clientId, topicPrefix,
                     autoDiscoveryTopic, autoDiscoveryTopicRetain, devices));
  }

  // ---------------------------------------------------------------------------
  // Properties of loading

  /** Loading fails exactly when a section or a required key is missing, or the prefix is a truthy non-string. */
  lemma LoadableIffNoError(file: Value)
    ensures FirstError(file).None? <==> Loadable(file)
  {
  }

  /** A KeyError names a section or a required key that the file really lacks. */
  lemma KeyErrorNamesMissingKey(file: Value, key: string)
    requires FirstError(file) == Some(KeyError(key))
    ensures file.Dict?
    ensures || (key == ServiceSection && key !in file.entries)
            || (key == MqttSection && key !in file.entries)
            || (key in RequiredServiceKeys && ServiceSection in file.entries
                && file.entries[ServiceSection].Dict? && key !in file.entries[ServiceSection].entries)
            || (key in RequiredMqttKeys && MqttSection in file.entries
                && file.entries[MqttSection].Dict? && key !in file.entries[MqttSection].entries)
  {
  }

  /** The required keys are checked in order: a missing `service` section wins over everything in `mqtt`. */
  lemma ServiceCheckedBeforeMqtt(file: Value)
    requires file.Dict? && ServiceSection !in file.entries
    ensures FirstError(file) == Some(KeyError(ServiceSection))
  {
  }

  /** A truthy prefix ends in `/` after loading and differs from the file's at most by that `/`. */
  lemma LoadedPrefixEndsWithSlash(file: Value, timestamp: string)
    requires FirstError(file).None?
    ensures var p := file.entries[MqttSection].entries[TopicPrefixKey];
            var q := LoadedConfig(file, timestamp).mqttTopicPrefix;
            && (Truthy(p) ==> q.Str? && EndsWithSlash(q.s) && (q.s == p.s || q.s == p.s + "/"))
            && (!Truthy(p) ==> q == p)
            && (p.Str? && EndsWithSlash(p.s) ==> q == p)
  {
  }

  /** The loaded prefix is already normalised: normalising it again is the identity. */
  lemma LoadedPrefixIsNormal(file: Value, timestamp: string)
    requires FirstError(file).None?
    ensures var q := LoadedConfig(file, timestamp).mqttTopicPrefix;
            NormalizedPrefix(q) == Ok(q)
  {
  }

  /** The client id is the file's when truthy, else the generic one; either way it is never empty. */
  lemma LoadedClientId(file: Value, timestamp: string)
    requires FirstError(file).None?
    ensures var id := file.entries[MqttSection].entries[ClientIdKey];
            var c := LoadedConfig(file, timestamp).mqttClientId;
            && (Truthy(id) ==> c == id)
            && (!Truthy(id) ==> c == Str(ClientIdPrefix + timestamp))
            && Truthy(c)
  {
  }

  /**
   The auto-discovery topic and its retain flag take the file's value whenever
   the key is present, even a falsy one, and `False` when it is absent;
   `bind_to_ip` is `None` whenever the file's value is absent or falsy.
   */
  lemma LoadedDefaults(file: Value, timestamp: string)
    requires FirstError(file).None?
    ensures var service := file.entries[ServiceSection].entries;
            var mqtt := file.entries[MqttSection].entries;
            var c := LoadedConfig(file, timestamp);
            && (AutoDiscoveryTopicKey in mqtt ==> c.mqttAutoDiscoveryTopic == mqtt[AutoDiscoveryTopicKey])
            && (AutoDiscoveryTopicKey !in mqtt ==> c.mqttAutoDiscoveryTopic == Bool(false))
            && (AutoDiscoveryTopicRetainKey in mqtt ==> c.mqttAutoDiscoveryTopicRetain == mqtt[AutoDiscoveryTopicRetainKey])
            && (AutoDiscoveryTopicRetainKey !in mqtt ==> c.mqttAutoDiscoveryTopicRetain == Bool(false))
            && (BindToIpKey in service && Truthy(service[BindToIpKey]) ==> c.bindToIp == service[BindToIpKey])
            && (BindToIpKey !in service || !Truthy(service[BindToIpKey]) ==> c.bindToIp == Null)
  {
  }

  /**
   The service flags are copied unchanged; host, port, user and password are
   copied when present and `None` when absent.
   */
  lemma LoadedCopies(file: Value, timestamp: string)
    requires FirstError(file).None?
    ensures var service := file.entries[ServiceSection].entries;
            var mqtt := file.entries[MqttSection].entries;
            var c := LoadedConfig(file, timestamp);
            && c.daemonMode == service[DaemonModeKey]
            && c.updateInterval == service[UpdateIntervalKey]
            && c.selfDiscovery == service[SelfDiscoveryKey]
            && c.mqttHost == (if HostKey in mqtt then mqtt[HostKey] else Null)
            && c.mqttPort == (if PortKey in mqtt then mqtt[PortKey] else Null)
            && c.mqttUser == (if UserKey in mqtt then mqtt[UserKey] else Null)
            && c.mqttPassword == (if PasswdKey in mqtt then mqtt[PasswdKey] else Null)
  {
  }

  /** `devices` is set exactly when the file has a `devices` value other than `None`, and is then that value. */
  lemma LoadedDevices(file: Value, timestamp: string)
    requires FirstError(file).None?
    ensures var c := LoadedConfig(file, timestamp);
            && (c.devices.Some? <==> DevicesSection in file.entries && file.entries[DevicesSection] != Null)
            && (c.devices.Some? ==> c.devices.value == file.entries[DevicesSection])
  {
  }
}
