/**
 The device list that `--discoverdump` prints: one YAML entry per discovered
 device, in the shape the configuration file's `devices` section takes, so
 that it can be pasted into the file. Discovery itself and the YAML
 serialisation are not modelled; the discovered devices are a parameter and
 the printed document is returned as a `Value`.
 */
module DiscoverDump {
  import opened Wrappers
  import opened Values
  import ConfigLoader

  /** A discovered device: its name, its (ip, port) address and its status mapping. */
  datatype Device = Device(name: string, host: (string, int), status: map<string, Value>)

  /** Key of the device status that holds the MAC address. */
  const MacAddressKey := "macaddress"

  /** Python's `name.encode("ascii", "ignore")`: the characters below 128, as bytes, in order. */
  function AsciiIgnore(name: string): (bytes: seq<Byte>)
    ensures |bytes| <= |name|
    ensures forall i :: 0 <= i < |bytes| ==> bytes[i] < 128
  {
    if name == [] then []
    else if name[0] as int < 128 then [name[0] as int as Byte] + AsciiIgnore(name[1..])
    else AsciiIgnore(name[1..])
  }

  /** A name made of ASCII characters only is encoded code for code. */
  lemma {:induction false} AsciiNameKept(name: string)
    requires forall i :: 0 <= i < |name| ==> name[i] as int < 128
    ensures |AsciiIgnore(name)| == |name|
    ensures forall i :: 0 <= i < |name| ==> AsciiIgnore(name)[i] as int == name[i] as int
  {
    if name != [] {
      AsciiNameKept(name[1..]);
      assert AsciiIgnore(name) == [name[0] as int as Byte] + AsciiIgnore(name[1..]);
    }
  }

  /** Encoding distributes over concatenation: each character is encoded on its own, in order. */
  lemma {:induction false} AsciiIgnoreConcat(a: string, b: string)
    ensures AsciiIgnore(a + b) == AsciiIgnore(a) + AsciiIgnore(b)
  {
    if a == [] {
      assert a + b == b;
    } else {
      assert (a + b)[0] == a[0];
      assert (a + b)[1..] == a[1..] + b;
      AsciiIgnoreConcat(a[1..], b);
    }
  }

  /** A single character: an ASCII one becomes its code, any other is dropped. */
  lemma AsciiIgnoreChar(c: char)
    ensures c as int < 128 ==> AsciiIgnore([c]) == [c as int as Byte]
    ensures c as int >= 128 ==> AsciiIgnore([c]) == []
  {
    assert [c][1..] == [];
  }

  /** The YAML entry for one device (lines 44-49). */
  function Entry(device: Device): Value
    requires MacAddressKey in device.status
  {
    Dict(map[
      "name" := Bytes(AsciiIgnore(device.name)),
      "ip" := Str(device.host.0),
      "port" := Int(device.host.1),
      "mac" := device.status[MacAddressKey]
    ])
  }

  /** The document printed between the copy markers. */
  function Document(entries: seq<Value>): Value {
    Dict(map[ConfigLoader.DevicesSection := List(entries)])
  }

  /** How discover_and_dump_for_config ends; it always exits. */
  datatype DumpResult =
    | NoDevices                        // nothing discovered: a message, then exit
    | MacAddressMissing(index: nat)    // the status of device `index` has no MAC address: KeyError
    | Dumped(entries: seq<Value>)      // Document(entries) printed, then exit

  /** Lines 34-55: one entry per discovered device, appended in discovery order. */
  method DumpForConfig(devices: seq<Device>) returns (r: DumpResult)
    ensures r == NoDevices <==> devices == []
    ensures r.MacAddressMissing? ==>
              && r.index < |devices| && MacAddressKey !in devices[r.index].status
              && forall j :: 0 <= j < r.index ==> MacAddressKey in devices[j].status
    ensures r.Dumped? <==> devices != [] && forall j :: 0 <= j < |devices| ==> MacAddressKey in devices[j].status
    ensures r.Dumped? ==>
              && |r.entries| == |devices|
              && forall j :: 0 <= j < |devices| ==> MacAddressKey in devices[j].status && r.entries[j] == Entry(devices[j])
  {
    if devices == [] { return NoDevices; }
    var yamlDevices: seq<Value> := [];
    for i := 0 to |devices|
      invariant |yamlDevices| == i
      invariant forall j :: 0 <= j < i ==> MacAddressKey in devices[j].status && yamlDevices[j] == Entry(devices[j])
    {
      var device := devices[i];
      if MacAddressKey !in device.status { return MacAddressMissing(i); }
      yamlDevices := yamlDevices + [Entry(device)];
    }
    return Dumped(yamlDevices);
  }

  /**
   Pasting a dumped document (for instance `Document(r.entries)` of a
   `Dumped` result `r` of DumpForConfig) into a loadable configuration file
   replaces the file's top-level `devices` by the dumped list; the file stays
   loadable, its configuration's `devices` becomes exactly the dumped
   entries, and no other field changes.
   */
  lemma DumpPastesIntoConfig(file: Value, timestamp: string, entries: seq<Value>)
    requires ConfigLoader.FirstError(file).None?
    ensures var pasted := Dict(file.entries + Document(entries).entries);
            && ConfigLoader.FirstError(pasted).None?
            && ConfigLoader.LoadedConfig(pasted, timestamp)
                 == ConfigLoader.LoadedConfig(file, timestamp).(devices := Some(List(entries)))
  {
    var pasted := Dict(file.entries + Document(entries).entries);
    assert pasted.entries[ConfigLoader.DevicesSection] == List(entries);
    assert pasted.entries[ConfigLoader.ServiceSection] == file.entries[ConfigLoader.ServiceSection];
    assert pasted.entries[ConfigLoader.MqttSection] == file.entries[ConfigLoader.MqttSection];
  }
}
