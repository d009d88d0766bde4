/**
 The start-up sequence of the daemon after the command line has been parsed:
 the configuration file is loaded, the parsed arguments override some of its
 fields, and a fixed order of checks chooses what runs (print the version,
 discover and dump devices, send a test packet, or the normal run path).

 Every call into the device/MQTT manager is an abstract outcome here: the
 model ends at the point where control is handed over, and says with which
 configuration.
 */
module Orchestrator {
  import opened Wrappers
  import opened Values
  import opened ConfigLoader

  /**
   The parsed command line. Each optional value is already resolved from the
   flag, its environment variable or its default (`None`), and `devices` is
   already decoded from JSON.
   */
  datatype Args = Args(
    dumpHaConfig: bool,             // --dumphaconfig
    mqttAutoDiscoveryTopic: Value,  // --mqtt_auto_discovery_topic, MQTT_AUTO_DISCOVERY_TOPIC
    background: bool,               // --background
    discoverDump: bool,             // --discoverdump
    mqttServer: Value,              // --mqttserver, MQTT_HOST
    mqttPort: Value,                // --mqttport, MQTT_PORT
    mqttUser: Value,                // --mqttuser, MQTT_USERNAME
    mqttPassword: Value,            // --mqttpassword, MQTT_PASSWORD
    discover: bool,                 // --discover
    version: bool,                  // --version
    test: bool,                     // --test
    devices: Value                  // --devices, DEVICES
  )

  /**
   The argument overrides: each overridable field becomes `argument or file
   value`, that is, the argument when it is truthy and the file's value
   otherwise. No other field is touched.
   */
  function Merge(config: Config, args: Args): Config {
    config.(
      mqttHost := Or(args.mqttServer, config.mqttHost),
      mqttPort := Or(args.mqttPort, config.mqttPort),
      mqttUser := Or(args.mqttUser, config.mqttUser),
      mqttPassword := Or(args.mqttPassword, config.mqttPassword),
      mqttAutoDiscoveryTopic := Or(args.mqttAutoDiscoveryTopic, config.mqttAutoDiscoveryTopic),
      devices := if Truthy(args.devices) then Some(args.devices) else config.devices
    )
  }

  /** Lines 319-341 of start: the chain of overrides, each applied only when its argument is truthy. */
  method ApplyOverrides(config: Config, args: Args) returns (merged: Config)
    ensures merged == Merge(config, args)
  {
    merged := config;
    if Truthy(args.mqttServer) { merged := merged.(mqttHost := args.mqttServer); }
    if Truthy(args.mqttPort) { merged := merged.(mqttPort := args.mqttPort); }
    if Truthy(args.mqttUser) { merged := merged.(mqttUser := args.mqttUser); }
    if Truthy(args.mqttPassword) { merged := merged.(mqttPassword := args.mqttPassword); }
    if Truthy(args.mqttAutoDiscoveryTopic) {
      merged := merged.(mqttAutoDiscoveryTopic := args.mqttAutoDiscoveryTopic);
    }
    if Truthy(args.devices) { merged := merged.(devices := Some(args.devices)); }
  }

  /** A flag that a store-true option can force on: `True` when the option is given, else unchanged. */
  function Forced(flag: Value, option: bool): Value {
    if option then Bool(true) else flag
  }

  /** Where the run path takes its devices from. */
  datatype DeviceSource =
    | Discovered             // AC.discover()
    | Configured(devices: Value)  // AC.make_device_objects(config["devices"])

  /** What start hands control to, and with which configuration. */
  datatype Outcome =
    | ConfigFailed(error: ConfigError)   // read_config raised; nothing else runs
    | PrintVersion                       // --version: print the versions and exit
    | DiscoverAndDump(config: Config)    // --discoverdump: discover_and_dump_for_config(config), which exits
    | SendTest(config: Config)           // --test: AC.test(config), then exit
    | DevicesKeyError(config: Config)    // run path: config["devices"] raises after connect_mqtt
    | DumpHaConfig(config: Config, source: DeviceSource)  // --dumphaconfig: dump the devices, then exit
    | Serve(config: Config, source: DeviceSource, publishAutoDiscovery: bool, serviceLoop: bool)
  {
    /** The outcomes that hand a configuration to the device/MQTT manager. */
    predicate HasConfig() {
      DiscoverAndDump? || SendTest? || DevicesKeyError? || DumpHaConfig? || Serve?
    }

    /** The outcomes reached through the run path (lines 361-391), after connect_mqtt. */
    predicate OnRunPath() {
      DevicesKeyError? || DumpHaConfig? || Serve?
    }
  }

  /**
   The run path (lines 366-383): devices come from discovery when
   `self_discovery` is truthy and from `config["devices"]` otherwise (a
   KeyError when absent); the HA dump exits; auto-discovery is published when
   its topic is truthy; the service loop runs only when `daemon_mode` is truthy.
   */
  function RunPath(config: Config, dumpHaConfig: bool): Outcome {
    if !Truthy(config.selfDiscovery) && config.devices.None? then DevicesKeyError(config)
    else
      var source := if Truthy(config.selfDiscovery) then Discovered else Configured(config.devices.value);
      if dumpHaConfig then DumpHaConfig(config, source)
      else Serve(config, source, Truthy(config.mqttAutoDiscoveryTopic), Truthy(config.daemonMode))
  }

  /**
   The mode chosen for a loaded configuration: version first (before any
   override), then the overrides and `--discover`, then discover-dump (before
   `--background` is applied), then `--background`, then test, then the run path.
   */
  function SelectMode(config: Config, args: Args): Outcome {
    if args.version then PrintVersion
    else
      var merged := Merge(config, args);
      var discovering := merged.(selfDiscovery := Forced(merged.selfDiscovery, args.discover));
      if args.discoverDump then DiscoverAndDump(discovering)
      else
        var final := discovering.(daemonMode := Forced(discovering.daemonMode, args.background));
        if args.test then SendTest(final)
        else RunPath(final, args.dumpHaConfig)
  }

  /**
   start from line 310 on, with the file already parsed: load the
   configuration, then apply the checks and overrides in the source's order,
   and on the serving path run the service loop. `callsBeforeInterrupt` is
   passed on to ServiceLoop; `calls` is the number of calls to the manager's
   `start`, made only when the outcome is `Serve` with the loop entered.
   */
  method Start(file: Value, timestamp: string, args: Args, callsBeforeInterrupt: nat)
    returns (outcome: Outcome, calls: nat)
    ensures FirstError(file).Some? ==> outcome == ConfigFailed(FirstError(file).value)
    ensures FirstError(file).None? ==> outcome == SelectMode(LoadedConfig(file, timestamp), args)
    ensures calls == if outcome.Serve? && outcome.serviceLoop then callsBeforeInterrupt + 1 else 0
  {
    var loaded := ReadConfig(file, timestamp);
    if loaded.Err? { return ConfigFailed(loaded.error), 0; }
    var config := loaded.value;

    // Print versions
    if args.version { return PrintVersion, 0; }

    config := ApplyOverrides(config, args);

    // Self discovery
    if args.discover { config := config.(selfDiscovery := Bool(true)); }

    if args.discoverDump { return DiscoverAndDump(config), 0; }

    // Daemon mode
    if args.background { config := config.(daemonMode := Bool(true)); }

    // Just do a test
    if args.test { return SendTest(config), 0; }

    // Run path: connect to MQTT, then obtain the devices
    var source: DeviceSource;
    if Truthy(config.selfDiscovery) {
      source := Discovered;
    } else if config.devices.Some? {
      source := Configured(config.devices.value);
    } else {
      return DevicesKeyError(config), 0;
    }
    if args.dumpHaConfig { return DumpHaConfig(config, source), 0; }
    var publish := Truthy(config.mqttAutoDiscoveryTopic);
    var daemon := Truthy(config.daemonMode);
    outcome := Serve(config, source, publish, daemon);
    calls := ServiceLoop(config.daemonMode, callsBeforeInterrupt);
  }

  /**
   The service loop of lines 383-389. `do_loop` is set from `daemon_mode` and
   never changed again, so the loop either never runs or runs until a call to
   the manager's `start` raises (an exception or a keyboard interrupt; a
   SIGTERM also ends up as an exception, because the registered handler
   `stop` takes no parameters and calling it with two raises a TypeError). `callsBeforeInterrupt` is the
   number of calls that return normally before one raises; the result is the
   number of calls made.
   */
  method ServiceLoop(daemonMode: Value, callsBeforeInterrupt: nat) returns (calls: nat)
    ensures calls == if Truthy(daemonMode) then callsBeforeInterrupt + 1 else 0
  {
    var doLoop := Truthy(daemonMode);
    calls := 0;
    while doLoop
      invariant doLoop == Truthy(daemonMode)
      invariant calls <= callsBeforeInterrupt
      invariant !doLoop ==> calls == 0
      decreases callsBeforeInterrupt - calls
    {
      // AC.start(config, devices)
      calls := calls + 1;
      if calls == callsBeforeInterrupt + 1 { break; }
    }
  }

  // ---------------------------------------------------------------------------
  // Properties of the overrides

  /** An override wins exactly when its argument is truthy; otherwise the file's value stays. */
  lemma MergePrecedence(config: Config, args: Args)
    ensures var m := Merge(config, args);
            && m.mqttHost == (if Truthy(args.mqttServer) then args.mqttServer else config.mqttHost)
            && m.mqttPort == (if Truthy(args.mqttPort) then args.mqttPort else config.mqttPort)
            && m.mqttUser == (if Truthy(args.mqttUser) then args.mqttUser else config.mqttUser)
            && m.mqttPassword == (if Truthy(args.mqttPassword) then args.mqttPassword else config.mqttPassword)
            && m.mqttAutoDiscoveryTopic ==
                 (if Truthy(args.mqttAutoDiscoveryTopic) then args.mqttAutoDiscoveryTopic else config.mqttAutoDiscoveryTopic)
            && m.devices == (if Truthy(args.devices) then Some(args.devices) else config.devices)
  {
  }

  /** The overrides change no field but the six overridable ones. */
  lemma MergeTouchesOnlyOverridable(config: Config, args: Args)
    ensures var m := Merge(config, args);
            && m.daemonMode == config.daemonMode
            && m.updateInterval == config.updateInterval
            && m.selfDiscovery == config.selfDiscovery
            && m.bindToIp == config.bindToIp
            && m.mqttClientId == config.mqttClientId
            && m.mqttTopicPrefix == config.mqttTopicPrefix
            && m.mqttAutoDiscoveryTopicRetain == config.mqttAutoDiscoveryTopicRetain
  {
  }

  /** Applying the same overrides twice is the same as applying them once. */
  lemma MergeIdempotent(config: Config, args: Args)
    ensures Merge(Merge(config, args), args) == Merge(config, args)
  {
  }

  /** A forced flag is truthy when its option is given, and a truthy flag is never made falsy. */
  lemma ForcedOnlyRaises(flag: Value, option: bool)
    ensures option ==> Truthy(Forced(flag, option))
    ensures Truthy(flag) ==> Truthy(Forced(flag, option))
    ensures !option ==> Forced(flag, option) == flag
  {
  }

  // ---------------------------------------------------------------------------
  // Properties of the mode selection

  /** The four modes are tried in the order version, discover-dump, test, run path. */
  lemma ModePrecedence(config: Config, args: Args)
    ensures var o := SelectMode(config, args);
            && (o == PrintVersion <==> args.version)
            && (o.DiscoverAndDump? <==> !args.version && args.discoverDump)
            && (o.SendTest? <==> !args.version && !args.discoverDump && args.test)
            && (o.OnRunPath() <==> !args.version && !args.discoverDump && !args.test)
            && !o.ConfigFailed?
  {
  }

  /**
   `--discover` and `--background` only force their flags on: the handed-over
   flag is truthy when the option is given or the file's flag is truthy, and
   is the file's flag when the option is not given. Discover-dump runs before
   `--background` is applied, so it always sees the file's `daemon_mode`.
   */
  lemma FlagsOnlyForcedOn(config: Config, args: Args)
    ensures var o := SelectMode(config, args);
            o.HasConfig() ==>
              && (args.discover || Truthy(config.selfDiscovery) <==> Truthy(o.config.selfDiscovery))
              && (!args.discover ==> o.config.selfDiscovery == config.selfDiscovery)
              && (o.DiscoverAndDump? ==> o.config.daemonMode == config.daemonMode)
              && (!o.DiscoverAndDump? ==>
                    (args.background || Truthy(config.daemonMode) <==> Truthy(o.config.daemonMode)))
              && (!args.background ==> o.config.daemonMode == config.daemonMode)
  {
  }

  /** Every handed-over configuration is the file's with exactly the overrides applied. */
  lemma HandedConfigIsMerged(config: Config, args: Args)
    ensures var o := SelectMode(config, args);
            o.HasConfig() ==>
              o.config.(selfDiscovery := config.selfDiscovery, daemonMode := config.daemonMode)
                == Merge(config, args)
  {
  }

  /**
   On the run path, discovery is used exactly when `self_discovery` is
   truthy; otherwise the configured devices are used, and their absence is
   the KeyError outcome. The service loop is entered exactly when
   `daemon_mode` is truthy, and auto-discovery is published exactly when its
   topic is truthy.
   */
  lemma RunPathChoices(config: Config, args: Args)
    ensures var o := SelectMode(config, args);
            && (o.DevicesKeyError? ==> !Truthy(o.config.selfDiscovery) && o.config.devices.None?)
            && ((o.DumpHaConfig? || o.Serve?) ==>
                  && (o.source == Discovered <==> Truthy(o.config.selfDiscovery))
                  && (o.source.Configured? ==> o.config.devices == Some(o.source.devices)))
            && (o.Serve? ==>
                  && (o.serviceLoop <==> Truthy(o.config.daemonMode))
                  && (o.publishAutoDiscovery <==> Truthy(o.config.mqttAutoDiscoveryTopic))
                  && (o.serviceLoop <==> args.background || Truthy(config.daemonMode)))
            && (o.DumpHaConfig? <==> o.OnRunPath() && args.dumpHaConfig && !o.DevicesKeyError?)
  {
  }

  // ---------------------------------------------------------------------------
  // Properties of the whole start-up, from file to hand-over

  /**
   For the configuration handed to the manager: an argument wins when truthy;
   otherwise the file's value is used, or the documented default when the
   file has no value (`None` for host, port, user and password, `False` for
   the auto-discovery topic); `devices` is the argument when truthy, else the
   file's list when present and not `None`, else absent.
   */
  lemma ArgumentsOverFileOverDefaults(file: Value, timestamp: string, args: Args)
    requires FirstError(file).None?
    ensures var mqtt := file.entries[MqttSection].entries;
            var o := SelectMode(LoadedConfig(file, timestamp), args);
            o.HasConfig() ==>
              && o.config.mqttHost == Or(args.mqttServer, Get(mqtt, HostKey))
              && o.config.mqttPort == Or(args.mqttPort, Get(mqtt, PortKey))
              && o.config.mqttUser == Or(args.mqttUser, Get(mqtt, UserKey))
              && o.config.mqttPassword == Or(args.mqttPassword, Get(mqtt, PasswdKey))
              && o.config.mqttAutoDiscoveryTopic ==
                   Or(args.mqttAutoDiscoveryTopic,
                      if AutoDiscoveryTopicKey in mqtt then mqtt[AutoDiscoveryTopicKey] else Bool(false))
              && (Truthy(args.devices) ==> o.config.devices == Some(args.devices))
              && (!Truthy(args.devices) ==> o.config.devices == DevicesEntry(file.entries))
  {
    LoadedCopies(file, timestamp);
    LoadedDefaults(file, timestamp);
    HandedConfigIsMerged(LoadedConfig(file, timestamp), args);
  }

  /**
   The topic-prefix invariant reaches the manager: in every handed-over
   configuration a truthy prefix ends in `/`, and the prefix is one that the
   normalisation leaves unchanged.
   */
  lemma HandedPrefixIsNormal(file: Value, timestamp: string, args: Args)
    requires FirstError(file).None?
    ensures var o := SelectMode(LoadedConfig(file, timestamp), args);
            o.HasConfig() ==>
              && NormalizedPrefix(o.config.mqttTopicPrefix) == Ok(o.config.mqttTopicPrefix)
              && (Truthy(o.config.mqttTopicPrefix) ==>
                    o.config.mqttTopicPrefix.Str? && EndsWithSlash(o.config.mqttTopicPrefix.s))
  {
    LoadedPrefixIsNormal(file, timestamp);
    HandedConfigIsMerged(LoadedConfig(file, timestamp), args);
  }
}
