# broadlink_ac_mqtt start-up: configuration loading, argument overrides and run-mode selection

This project is a Dafny model of the start-up logic in `main.py` of broadlink_ac_mqtt. That program bridges Broadlink air-conditioner controllers to an MQTT broker. The model covers the part of `main.py` that does not depend on I/O or on the device/MQTT manager (`AcToMqtt`):

- **`read_config`, after the YAML has been parsed.** It turns the nested `service` / `mqtt` / `devices` document into the flat configuration dictionary. It fails on a missing section or a missing required key. It fills in the documented defaults, makes a fallback MQTT client id from a timestamp, and makes a truthy `mqtt_topic_prefix` end in `/`.
- **The override block and run-mode branching in `start`.** Already-resolved argument values replace configuration fields only when they are truthy. `--discover` and `--background` force two flags on. A fixed order of checks then picks the run mode: version, discover-dump, test, and finally the run path. On the run path the devices come from discovery or from the configuration, and the service loop is entered only in daemon mode.
- **The device list printed by `--discoverdump`.** This is one YAML entry per discovered device.

Modules:

- `Values` (values.dfy): a Python/YAML value (`Null`, `Bool`, `Int`, `Float`, `Str`, `Bytes`, `List`, `Dict`), Python truthiness, `a or b` and `dict.get`. `Wrappers` in the same file holds `Option` and `Result`.
- `ConfigLoader` (config_loader.dfy):
  - `ReadConfig` builds the configuration one key at a time, in the source's order, and stops at the first exception: `TypeError`, `KeyError` or `AttributeError`, as Python would raise.
  - It is proved equal to a declarative reference. `FirstError` gives the first failing read. `LoadedConfig` gives the configuration field by field. The lemmas state the promised properties of that reference.
- `Orchestrator` (orchestrator.dfy):
  - `ApplyOverrides` is the chain of `if` overrides. It is proved equal to `Merge`, where each overridable field becomes `argument or file value`.
  - `Start` is the whole sequence from `read_config` to the hand-over. It is proved equal to `SelectMode`, whose result is a tagged `Outcome`.
  - `ServiceLoop` is the `while do_loop` loop.
- `DiscoverDump` (discover_dump.dfy): `DumpForConfig` loops over the discovered devices and builds the YAML entries. A lemma shows that pasting the dump into a loadable file sets exactly its `devices`.

The configuration dictionary is a record with one field per key (`Config`). Its `devices` field is an `Option`, because the key is absent unless the file sets it. A missing `devices` key on the run path is the `DevicesKeyError` outcome, matching the `KeyError` that `config["devices"]` raises at main.py:372.

**Where the documented design and the code differ, the model follows the code:**

- `mqtt.client_id` is read by plain indexing (main.py:80-81). A missing `client_id` is therefore a `KeyError`, just like the other required keys.
- When `daemon_mode` is falsy, `do_loop` is false and the loop body never runs, so the manager's `start` is never called (main.py:383-389). The model has `serviceLoop == false` and `ServiceLoop` makes zero calls.
- `--discoverdump` hands over the configuration before `--background` is applied (main.py:347-352). So the dump always sees the file's `daemon_mode`.

## Model

| member | source | states |
|---|---|---|
| ConfigLoader.NormalizedPrefix | main.py:96-100 | A prefix is accepted exactly when it is falsy or a string. A truthy accepted prefix ends in `/` and differs from the input by at most that one `/`. A falsy prefix, or one already ending in `/`, is returned unchanged. |
| ConfigLoader.NormalizedPrefixIdempotent | main.py:96-100 | Normalising an already-normalised prefix gives the same result. |
| ConfigLoader.FirstMissing | main.py:67-84 | Gives the index of the first required key, in reading order, that the section lacks. All earlier keys are present. `None` exactly when every key is present. |
| ConfigLoader.ReadConfig | main.py:58-106 | Building the dictionary key by key gives the error `FirstError` names whenever there is one. Otherwise it gives exactly `LoadedConfig`. |
| ConfigLoader.LoadableIffNoError | main.py:67-100 | Loading succeeds if and only if the file is a mapping, both sections are mappings, all five required keys are present, and the topic prefix is falsy or a string. |
| ConfigLoader.KeyErrorNamesMissingKey | main.py:67-84 | Every `KeyError` names something the file really lacks: the `service` section, the `mqtt` section, or a required key of one of them. |
| ConfigLoader.ServiceCheckedBeforeMqtt | main.py:67-74 | A missing `service` section is reported before anything in `mqtt` is looked at. |
| ConfigLoader.LoadedPrefixEndsWithSlash | main.py:96-100 | After loading, a truthy prefix ends in `/` and is the file's prefix, or that prefix plus `/`. A falsy prefix, or one already ending in `/`, is kept as it is. |
| ConfigLoader.LoadedPrefixIsNormal | main.py:96-100 | The loaded prefix is a fixed point of the normalisation. |
| ConfigLoader.LoadedClientId | main.py:79-83 | The client id is the file's `client_id` when that is truthy. Otherwise it is `broadlink_to_mqtt-` followed by the timestamp. Either way it is truthy. |
| ConfigLoader.LoadedDefaults | main.py:71-94 | The auto-discovery topic and its retain flag take the file's value whenever the key is present, even a falsy one, and `False` when it is absent. `bind_to_ip` is `None` when the file's value is absent or falsy. |
| ConfigLoader.LoadedCopies | main.py:67-77 | The three service flags are copied unchanged. Host, port, user and password are copied when present and are `None` when absent. |
| ConfigLoader.LoadedDevices | main.py:103-104 | `devices` is set exactly when the file has a `devices` value other than `None`, and then it is that value. |
| Orchestrator.ApplyOverrides | main.py:319-341 | The chain of six conditional overrides gives exactly `Merge`: each overridable field becomes the argument when it is truthy, else the file's value, and no other field changes. |
| Orchestrator.MergePrecedence | main.py:319-341 | Each of host, port, user, password, auto-discovery topic and devices is the argument when it is truthy, and the file's value otherwise. |
| Orchestrator.MergeTouchesOnlyOverridable | main.py:319-341 | The overrides leave the seven other fields unchanged. |
| Orchestrator.MergeIdempotent | main.py:319-341 | Applying the same overrides twice has the same effect as applying them once. |
| Orchestrator.ForcedOnlyRaises | main.py:343-352 | A store-true option forces its flag truthy. It never makes a truthy flag falsy, and when it is absent the flag is unchanged. |
| Orchestrator.Start | main.py:310-389 | A failed load gives `ConfigFailed` with the load's first error, whatever the arguments (so the version check comes after loading). Otherwise the outcome is `SelectMode` of the loaded configuration. The manager's `start` is called (through `ServiceLoop`) only when the outcome is `Serve` with the loop entered, and then once more than the calls that return normally. |
| Orchestrator.ModePrecedence | main.py:313-359 | Version is chosen exactly when `--version` is given. Discover-dump is chosen exactly when it is given without version. Test is chosen exactly when `--test` is given without either of those. The run path is taken exactly when none of the three is given. |
| Orchestrator.FlagsOnlyForcedOn | main.py:343-352 | The flags handed over are truthy exactly when their option is given or the file's flag is truthy, and unchanged when the option is absent. Discover-dump sees the file's `daemon_mode`. |
| Orchestrator.HandedConfigIsMerged | main.py:319-352 | Every configuration handed to the manager equals the loaded one with the overrides applied, apart from the two forced flags. |
| Orchestrator.RunPathChoices | main.py:366-389 | Discovery is used exactly when `self_discovery` is truthy. Otherwise the configured devices are used, and their absence is the `KeyError` outcome. The HA dump is chosen exactly when `--dumphaconfig` is given. Auto-discovery is published exactly when its topic is truthy. The service loop is entered exactly when `daemon_mode` is truthy, that is, when `--background` is given or the file's flag is truthy. |
| Orchestrator.ArgumentsOverFileOverDefaults | main.py:74-104 | From file to hand-over, host, port, user, password and the auto-discovery topic are each the truthy argument, else the file's value, else the documented default. `devices` is the truthy argument, else the file's non-`None` value, else absent. |
| Orchestrator.HandedPrefixIsNormal | main.py:96-100 | In every configuration handed to the manager, the topic prefix is normalised: when truthy, it ends in `/`. |
| Orchestrator.ServiceLoop | main.py:383-389 | The manager's `start` is called only when `daemon_mode` is truthy. It is then called until a call raises, so there are the normally returning calls plus the one that raises. |
| DiscoverDump.AsciiIgnore | main.py:45 | The encoded name is no longer than the name, and every byte is below 128. |
| DiscoverDump.AsciiNameKept | main.py:45 | A name made only of ASCII characters is encoded code point for code point. |
| DiscoverDump.AsciiIgnoreConcat | main.py:45 | Encoding a concatenation is the concatenation of the encodings, so the characters are encoded one at a time and in order. |
| DiscoverDump.AsciiIgnoreChar | main.py:45 | A single ASCII character becomes its code; a single non-ASCII character is dropped. With `AsciiIgnoreConcat` this fixes the result for every name. |
| DiscoverDump.DumpForConfig | main.py:31-55 | No devices gives the no-devices outcome. If a device's status has no MAC address, the outcome names the first such device. Otherwise there is one entry per device, in discovery order, each the entry for that device. |
| DiscoverDump.DumpPastesIntoConfig | main.py:103-104 | Pasting a dumped document into a loadable file, so that its `devices` replaces the file's, keeps the file loadable. The loaded configuration is the old one, with `devices` set to exactly the dumped list. |

## Left out

- YAML parsing, opening the file, and the existence checks for the data directory and config path (main.py:63-64, 280-300): the parsed document is an input. Mapping keys are modelled as strings only; YAML dates, other scalar tags and NaN floats are not modelled.
- Argument parsing, `.env` loading and environment-variable resolution (main.py:171-267): `Args` holds the already-resolved values. The options `--debug`, `--logfile`, `--data_dir` and `--config` are not in `Args`, because they only feed logging and file lookup.
- JSON decoding of `--devices` (main.py:270-277) is a library call, so `Args.devices` is the decoded value. In the source, `json.loads(None)` raises `TypeError`, not `KeyError`, so the `except KeyError` branch does not catch an absent argument. The model makes no promise about an absent `--devices`.
- Logging set-up and log calls (main.py:109-125, 302-307) only have side effects.
- Signal handling, `stop` and the `finally` teardown (main.py:129-155, 392-402) are asynchronous signal delivery, a sleep-polling loop and process exit. `do_loop` and `running` are assigned as locals in `start` and `stop`, so there is no shared flag to model. `stop` also takes no parameters but is registered as a two-argument signal handler.
- Every call into `AcToMqtt` (`discover`, `make_device_objects`, `connect_mqtt`, `test`, `publish_mqtt_auto_discovery`, `dump_homeassistant_config_from_devices`, `start`, `stop`) appears only as an `Outcome` or `DumpResult` constructor. A failure inside one of these calls is not modelled.
- The printed text (version banner, copy markers, messages) and the YAML serialisation of the dump are not modelled. `Document` gives the dumped value.
- `time.time()` is the `timestamp` parameter, taken as the text `str(time.time())` would produce.
- Orchestrator.ServiceLoop: covers only runs that end because a call to the manager's `start` raises. A daemon that is never interrupted loops forever, which a terminating method cannot express.
- ConfigLoader.ConfigError: keeps the exception type and the offending key or section name, not Python's full message text.
