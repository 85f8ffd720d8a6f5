// discovery/discovery.go: what a scan makes of the service entries it receives.

/** Entries arrive in any order and number from the mDNS library, nil ones included. */
module Discovery {
  import opened Basics
  import opened CacheNames

  // Addresses are carried in their printed form.
  datatype Device = Device(name: string, address: string, port: int, txt: map<string, string>, hostname: string)

  datatype ServiceEntry = ServiceEntry(
    instance: string, hostName: string, port: int, addrIPv4: seq<string>, addrIPv6: seq<string>, text: seq<string>)

  predicate OccursAt(s: string, sub: string, i: int) {
    0 <= i <= |s| - |sub| && s[i..i + |sub|] == sub
  }

  predicate Contains(s: string, sub: string) {
    exists i :: 0 <= i <= |s| && OccursAt(s, sub, i)
  }

  predicate HasPowerMeasurement(d: Device) {
    && "C" in d.txt
    && var clusters := d.txt["C"];
    (Contains(clusters, "0B04") || Contains(clusters, "B04") || Contains(clusters, "0091") || Contains(clusters, "91"))
  }

  // Never empty.
  function GetDeviceID(d: Device): (id: string)
    ensures id != ""
  {
    if "D" in d.txt && d.txt["D"] != "" then d.txt["D"]
    else d.address + ":" + Formatted(d.port)
  }

  lemma {:induction false} LongerNeedle(s: string, c: string, sub: string)
    requires Contains(s, c + sub)
    ensures Contains(s, sub)
  {
    var i :| 0 <= i <= |s| && OccursAt(s, c + sub, i);
    assert s[i + |c|..i + |c| + |sub|] == (c + sub)[|c|..] == sub;
    assert OccursAt(s, sub, i + |c|);
  }

  // The padded cluster numbers never decide: "B04" or "91" anywhere in the list is enough.
  lemma {:induction false} TwoNeedlesDecide(d: Device)
    ensures HasPowerMeasurement(d) <==> "C" in d.txt && (Contains(d.txt["C"], "B04") || Contains(d.txt["C"], "91"))
  {
    if "C" in d.txt {
      assert "0" + "B04" == "0B04" && "00" + "91" == "0091";
      if Contains(d.txt["C"], "0B04") { LongerNeedle(d.txt["C"], "0", "B04"); }
      if Contains(d.txt["C"], "0091") { LongerNeedle(d.txt["C"], "00", "91"); }
    }
  }

  // Devices whose "D" record is missing or empty share an identifier only if they share address and port, even
  // where the address is full of colons.
  lemma {:induction false} FallbackIDInjective(d: Device, e: Device)
    requires "D" !in d.txt || d.txt["D"] == ""
    requires "D" !in e.txt || e.txt["D"] == ""
    ensures GetDeviceID(d) == GetDeviceID(e) <==> d.address == e.address && d.port == e.port
  {
    if GetDeviceID(d) == GetDeviceID(e) {
      var x, m, n := GetDeviceID(d), Formatted(d.port), Formatted(e.port);
      NoColon(d.port);
      NoColon(e.port);
      assert x[|d.address|] == ':' && x[|e.address|] == ':';
      assert forall i :: 0 <= i < |m| ==> x[|d.address| + 1 + i] == m[i];
      assert forall i :: 0 <= i < |n| ==> x[|e.address| + 1 + i] == n[i];
      LastColon(x, |d.address|, |e.address|);
      assert d.address == x[..|d.address|] == e.address;
      assert m == x[|d.address| + 1..] == n;
      FormattedInjective(d.port, e.port);
    }
  }

  // t, cut at its last colon, is the device's address and port.
  predicate Spells(t: string, d: Device) {
    exists k :: 0 <= k < |t| && CutAt(t, k) && t[..k] == d.address && t[k + 1..] == Formatted(d.port)
  }

  predicate CutAt(t: string, k: int)
    requires 0 <= k < |t|
  {
    t[k] == ':' && forall i :: k < i < |t| ==> t[i] != ':'
  }

  lemma {:induction false} SpellsFallback(t: string, d: Device)
    ensures Spells(t, d) <==> t == d.address + ":" + Formatted(d.port)
  {
    NoColon(d.port);
    if t == d.address + ":" + Formatted(d.port) {
      var k := |d.address|;
      assert t[k + 1..] == Formatted(d.port) && t[..k] == d.address;
      assert forall i :: k < i < |t| ==> t[i] == Formatted(d.port)[i - k - 1];
      assert CutAt(t, k);
    }
  }

  // What the identifier is: the "D" record if it holds anything, else the address and port.
  lemma {:induction false} DeviceIDIs(d: Device)
    ensures "D" in d.txt && d.txt["D"] != "" ==> GetDeviceID(d) == d.txt["D"]
    ensures "D" !in d.txt || d.txt["D"] == "" ==> Spells(GetDeviceID(d), d)
  {
    SpellsFallback(GetDeviceID(d), d);
  }

  // When two devices, of any kind, have one identifier: both record the same one, both fall back to
  // the same address and port, or one records what the other falls back to.
  lemma {:induction false} IDsCollideIff(d: Device, e: Device)
    ensures GetDeviceID(d) == GetDeviceID(e) <==>
              var x := if "D" in d.txt then d.txt["D"] else "";
              var y := if "D" in e.txt then e.txt["D"] else "";
              if x == "" && y == "" then d.address == e.address && d.port == e.port
              else if x == "" then Spells(y, d)
              else if y == "" then Spells(x, e)
              else x == y
  {
    if ("D" !in d.txt || d.txt["D"] == "") && ("D" !in e.txt || e.txt["D"] == "") { FallbackIDInjective(d, e); }
    SpellsFallback(GetDeviceID(d), e);
    SpellsFallback(GetDeviceID(e), d);
  }

  lemma {:induction false} NoColon(n: int)
    ensures ':' !in Formatted(n)
  {
    DecimalReadsBack(if n < 0 then -n else n);
  }

  lemma {:induction false} LastColon(x: string, i: nat, j: nat)
    requires i < |x| && j < |x| && x[i] == ':' && x[j] == ':'
    requires forall k :: i < k < |x| ==> x[k] != ':'
    requires forall k :: j < k < |x| ==> x[k] != ':'
    ensures i == j
  {
  }

  // ---------- TXT records ----------

  // t is the key k, an equals sign, and the value v; the key holds no equals sign.
  predicate Sets(t: string, k: string, v: string) {
    '=' !in k && t == k + "=" + v
  }

  lemma {:induction false} SetsOne(t: string, k: string, v: string, k': string, v': string)
    requires Sets(t, k, v) && Sets(t, k', v')
    ensures k == k' && v == v'
  {
    assert t[|k|] == '=' && t[|k'|] == '=';
    assert forall i :: 0 <= i < |k| ==> t[i] == k[i];
    assert forall i :: 0 <= i < |k'| ==> t[i] == k'[i];
    assert k == t[..|k|] && k' == t[..|k'|] && v == t[|k| + 1..] && v' == t[|k'| + 1..];
  }

  lemma {:induction false} SetsNeedsEquals(t: string, k: string, v: string)
    ensures Sets(t, k, v) ==> '=' in t
  {
    if Sets(t, k, v) { assert t[|k|] == '='; }
  }

  // SplitN(t, "=", 2): the pieces around the first equals sign.
  method SplitAtEquals(t: string) returns (found: bool, k: string, v: string)
    ensures found <==> '=' in t
    ensures found ==> Sets(t, k, v)
  {
    var i := 0;
    while i < |t| && t[i] != '='
      invariant i <= |t| && '=' !in t[..i]
    {
      i := i + 1;
    }
    if i == |t| {
      assert t[..i] == t;
      return false, "", "";
    }
    return true, t[..i], t[i + 1..];
  }

  // m maps each key that some record sets to the value of the last record that sets it.
  ghost predicate LastWins(text: seq<string>, m: map<string, string>) {
    forall k :: (k in m <==> exists i, v :: 0 <= i < |text| && Sets(text[i], k, v))
                && (k in m ==> LastSetter(text, k, m[k]))
  }

  ghost predicate LastSetter(text: seq<string>, k: string, v: string) {
    exists i :: 0 <= i < |text| && Sets(text[i], k, v) && forall j, w :: i < j < |text| ==> !Sets(text[j], k, w)
  }

  lemma {:induction false} NextRecord(text: seq<string>, m: map<string, string>, t: string, k: string, v: string)
    requires LastWins(text, m) && Sets(t, k, v)
    ensures LastWins(text + [t], m[k := v])
  {
    var text', m' := text + [t], m[k := v];
    forall k'
      ensures k' in m' <==> exists i, w :: 0 <= i < |text'| && Sets(text'[i], k', w)
      ensures k' in m' ==> LastSetter(text', k', m'[k'])
    {
      if k' == k {
        assert Sets(text'[|text|], k, v);
      } else {
        forall w ensures !Sets(t, k', w) { if Sets(t, k', w) { SetsOne(t, k, v, k', w); } }
        if k' in m {
          var i :| 0 <= i < |text| && Sets(text[i], k', m[k'])
                   && forall j, w :: i < j < |text| ==> !Sets(text[j], k', w);
          assert Sets(text'[i], k', m[k']);
          assert forall j, w :: i < j < |text'| ==> !Sets(text'[j], k', w);
        } else {
          assert forall i, w :: 0 <= i < |text'| ==> !Sets(text'[i], k', w);
        }
      }
    }
  }

  lemma {:induction false} NoRecords()
    ensures LastWins([], map[])
  {
  }

  lemma {:induction false} SkippedRecord(text: seq<string>, m: map<string, string>, t: string)
    requires LastWins(text, m) && '=' !in t
    ensures LastWins(text + [t], m)
  {
    var text' := text + [t];
    forall k, w ensures Sets(t, k, w) ==> '=' in t { SetsNeedsEquals(t, k, w); }
    forall k
      ensures k in m <==> exists i, w :: 0 <= i < |text'| && Sets(text'[i], k, w)
      ensures k in m ==> LastSetter(text', k, m[k])
    {
      if k in m {
        var i :| 0 <= i < |text| && Sets(text[i], k, m[k]) && forall j, w :: i < j < |text| ==> !Sets(text[j], k, w);
        assert Sets(text'[i], k, m[k]);
        assert forall j, w :: i < j < |text'| ==> !Sets(text'[j], k, w);
      } else {
        assert forall i, w :: 0 <= i < |text'| ==> !Sets(text'[i], k, w);
      }
    }
  }

  // A device carries the entry's facts, its first IPv4 address or else its first IPv6 one, and
  // the last value of each TXT key.
  ghost predicate Describes(entry: ServiceEntry, d: Device) {
    && d.name == entry.instance && d.port == entry.port && d.hostname == entry.hostName
    && (if entry.addrIPv4 != [] then d.address == entry.addrIPv4[0]
        else entry.addrIPv6 != [] && d.address == entry.addrIPv6[0])
    && LastWins(entry.text, d.txt)
  }

  predicate Usable(entry: Option<ServiceEntry>) {
    entry.Some? && (entry.value.addrIPv4 != [] || entry.value.addrIPv6 != [])
  }

  method ParseServiceEntry(entry: Option<ServiceEntry>) returns (d: Option<Device>)
    ensures d.Some? <==> Usable(entry)
    ensures d.None? <==> entry.None? || (entry.value.addrIPv4 == [] && entry.value.addrIPv6 == [])
    ensures d.Some? ==> Describes(entry.value, d.value)
    ensures d.Some? ==> d.value.name == entry.value.instance && d.value.hostname == entry.value.hostName
    ensures d.Some? ==> d.value.port == entry.value.port && LastWins(entry.value.text, d.value.txt)
    ensures d.Some? && entry.value.addrIPv4 != [] ==> d.value.address == entry.value.addrIPv4[0]
    ensures d.Some? && entry.value.addrIPv4 == [] ==> [d.value.address] == entry.value.addrIPv6[..1]
  {
    hide LastWins, Sets;
    if entry.None? { return None; }
    var e := entry.value;
    if |e.addrIPv4| == 0 && |e.addrIPv6| == 0 { return None; }
    var addr := if |e.addrIPv4| > 0 then e.addrIPv4[0] else e.addrIPv6[0];
    var txt: map<string, string> := map[];
    NoRecords();
    assert e.text[..0] == [];
    var i := 0;
    while i < |e.text|
      invariant i <= |e.text| && LastWins(e.text[..i], txt)
    {
      var found, k, v := SplitAtEquals(e.text[i]);
      assert e.text[..i + 1] == e.text[..i] + [e.text[i]];
      if found {
        NextRecord(e.text[..i], txt, e.text[i], k, v);
        txt := txt[k := v];
      } else {
        SkippedRecord(e.text[..i], txt, e.text[i]);
      }
      i := i + 1;
    }
    assert e.text[..i] == e.text;
    return Some(Device(e.instance, addr, e.port, txt, e.hostName));
  }

  // ---------- The scanner ----------

  // The devices map after `found` arrived in that order: the last device of an identifier wins.
  function Override(devices: map<string, Device>, found: seq<Device>): map<string, Device> {
    if found == [] then devices
    else
      var last := found[|found| - 1];
      Override(devices, found[..|found| - 1])[GetDeviceID(last) := last]
  }

  predicate Keyed(devices: map<string, Device>) {
    forall id :: id in devices ==> GetDeviceID(devices[id]) == id
  }

  predicate LastFound(found: seq<Device>, id: string, d: Device) {
    exists i :: 0 <= i < |found| && found[i] == d && GetDeviceID(found[i]) == id
                && forall j :: i < j < |found| ==> GetDeviceID(found[j]) != id
  }

  // Lookup by identifier finds the last device found with it, or else the one known before; and
  // every key stays its device's own identifier.
  lemma {:induction false} OverrideLastWins(devices: map<string, Device>, found: seq<Device>, id: string)
    ensures Keyed(devices) ==> Keyed(Override(devices, found))
    ensures var m := Override(devices, found);
            if exists i :: 0 <= i < |found| && GetDeviceID(found[i]) == id
            then id in m && LastFound(found, id, m[id])
            else (id in m <==> id in devices) && (id in m ==> m[id] == devices[id])
  {
    hide GetDeviceID;
    if found != [] {
      var n := |found| - 1;
      var front := found[..n];
      OverrideLastWins(devices, front, id);
      if GetDeviceID(found[n]) == id {
        assert LastFound(found, id, found[n]);
      } else if exists i :: 0 <= i < |front| && GetDeviceID(front[i]) == id {
        LastFoundExtends(found, id, Override(devices, front)[id]);
      } else {
        assert forall i :: 0 <= i < |found| ==> GetDeviceID(found[i]) != id;
      }
    }
  }

  lemma {:induction false} LastFoundExtends(found: seq<Device>, id: string, d: Device)
    requires found != [] && GetDeviceID(found[|found| - 1]) != id && LastFound(found[..|found| - 1], id, d)
    ensures LastFound(found, id, d)
    ensures exists i :: 0 <= i < |found| && GetDeviceID(found[i]) == id
  {
    var front := found[..|found| - 1];
    var i :| 0 <= i < |front| && front[i] == d && GetDeviceID(front[i]) == id
             && forall j :: i < j < |front| ==> GetDeviceID(front[j]) != id;
    assert found[i] == d;
    forall j | i < j < |found| ensures GetDeviceID(found[j]) != id {
      if j < |front| { assert found[j] == front[j]; }
    }
  }

  // The entries a scan turns into devices.
  function UsableOnes(entries: seq<Option<ServiceEntry>>): seq<ServiceEntry> {
    if entries == [] then []
    else
      var e := entries[|entries| - 1];
      UsableOnes(entries[..|entries| - 1]) + (if Usable(e) then [e.value] else [])
  }

  class Scanner {
    var devices: map<string, Device>

    constructor ()
      ensures devices == map[]
    {
      devices := map[];
    }

    // The consumer loop of Discover, over the entries of one scan.
    method Discover(entries: seq<Option<ServiceEntry>>) returns (found: seq<Device>)
      modifies this
      ensures devices == Override(old(devices), found)
      ensures AllDescribed(UsableOnes(entries), found)
    {
      hide GetDeviceID, Describes;
      found := [];
      var i := 0;
      while i < |entries|
        invariant i <= |entries| && devices == Override(old(devices), found)
        invariant AllDescribed(UsableOnes(entries[..i]), found)
      {
        var device := ParseServiceEntry(entries[i]);
        UsableNext(entries, i);
        if device.Some? {
          OverrideNext(old(devices), found, device.value);
          DescribedNext(UsableOnes(entries[..i]), found, entries[i].value, device.value);
          devices := devices[GetDeviceID(device.value) := device.value];
          found := found + [device.value];
        }
        i := i + 1;
      }
      assert entries[..i] == entries;
    }
  }

  ghost predicate AllDescribed(usable: seq<ServiceEntry>, found: seq<Device>) {
    |found| == |usable| && forall i :: 0 <= i < |found| ==> Describes(usable[i], found[i])
  }

  lemma {:induction false} DescribedNext(usable: seq<ServiceEntry>, found: seq<Device>, entry: ServiceEntry, d: Device)
    requires AllDescribed(usable, found) && Describes(entry, d)
    ensures AllDescribed(usable + [entry], found + [d])
  {
  }

  lemma {:induction false} UsableNext(entries: seq<Option<ServiceEntry>>, i: nat)
    requires i < |entries|
    ensures UsableOnes(entries[..i + 1])
            == UsableOnes(entries[..i]) + (if Usable(entries[i]) then [entries[i].value] else [])
  {
    assert entries[..i + 1][..i] == entries[..i];
  }

  lemma {:induction false} OverrideNext(devices: map<string, Device>, found: seq<Device>, d: Device)
    ensures Override(devices, found + [d]) == Override(devices, found)[GetDeviceID(d) := d]
  {
    assert (found + [d])[..|found|] == found;
  }
}
