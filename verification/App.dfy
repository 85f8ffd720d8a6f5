// main.go: handing the devices of a scan over to the monitor.

module App {
  import opened Basics
  import opened Discovery
  import opened Monitor
  import PowerMonitor
  import Shutdown

  // The identifiers of the devices that can be monitored.
  function PowerIDs(found: seq<Device>): set<string> {
    set d | d in found && HasPowerMeasurement(d) :: GetDeviceID(d)
  }

  class App {
    const scanner: Scanner
    const monitor: PowerMonitor.PowerMonitor

    constructor (scanner: Scanner, monitor: PowerMonitor.PowerMonitor)
      ensures this.scanner == scanner && this.monitor == monitor
    {
      this.scanner, this.monitor := scanner, monitor;
    }

    // One device of the scan, after those in `before`.
    method HandOver(device: Device, ghost w0: System, ghost before: set<string>)
      requires monitor.Valid() && PowerMonitor.StartedFrom(w0, monitor.world, before)
      modifies monitor
      ensures monitor.Valid()
      ensures PowerMonitor.StartedFrom(w0, monitor.world,
                before + (if HasPowerMeasurement(device) then {GetDeviceID(device)} else {}))
    {
      hide PowerMonitor.StartedFrom, Tally, Matched, Shutdown.Covered, Unique, Serves;
      if HasPowerMeasurement(device) {
        var id := GetDeviceID(device);
        PowerMonitor.StartedOneMore(w0, monitor.world, Step(monitor.world, Start(id)), before, id);
        var monitoring := monitor.IsMonitoring(id);
        if !monitoring {
          var started := monitor.StartMonitoringDevice(id);
        }
      } else {
        assert before + {} == before;
      }
    }

    // scan is None when the scan failed.  The context is live; the monitor may be in any state.
    // Afterwards each power device of the scan is monitored, however often it is listed; goroutines
    // that ran before are untouched, and none is made for any other device.
    method DiscoverAndMonitor(scan: Option<seq<Option<ServiceEntry>>>) returns (found: seq<Device>)
      requires monitor.Valid()
      modifies scanner, monitor
      ensures monitor.Valid()
      ensures scan.None? ==>
                found == [] && scanner.devices == old(scanner.devices) && monitor.world == old(monitor.world)
      ensures scan.Some? ==> AllDescribed(UsableOnes(scan.value), found)
      ensures scanner.devices == Override(old(scanner.devices), found)
      ensures PowerMonitor.StartedFrom(old(monitor.world), monitor.world, PowerIDs(found))
    {
      hide PowerMonitor.StartedFrom, Tally, HasPowerMeasurement, GetDeviceID;
      PowerMonitor.StartedNothing(monitor.world);
      assert PowerIDs([]) == {};
      if scan.None? { return []; }
      found := scanner.Discover(scan.value);
      var i := 0;
      assert found[..0] == [];
      while i < |found|
        invariant i <= |found| && monitor.Valid()
        invariant scanner.devices == Override(old(scanner.devices), found)
        invariant PowerMonitor.StartedFrom(old(monitor.world), monitor.world, PowerIDs(found[..i]))
      {
        PowerIDsGrow(found, i);
        HandOver(found[i], old(monitor.world), PowerIDs(found[..i]));
        i := i + 1;
      }
      assert found[..i] == found;
    }
  }

  lemma {:induction false} PowerIDsGrow(found: seq<Device>, i: nat)
    requires i < |found|
    ensures PowerIDs(found[..i + 1])
            == PowerIDs(found[..i]) + (if HasPowerMeasurement(found[i]) then {GetDeviceID(found[i])} else {})
  {
    assert found[..i + 1] == found[..i] + [found[i]];
  }

  predicate NamesPowerDevice(found: seq<Device>, id: string) {
    exists d :: d in found && HasPowerMeasurement(d) && GetDeviceID(d) == id
  }

  // Every power device found is monitored, and a goroutine was made for no other device.
  lemma {:induction false} HandOffIsForPowerDevices(w0: System, w: System, found: seq<Device>)
    requires PowerMonitor.StartedFrom(w0, w, PowerIDs(found))
    ensures forall d :: d in found && HasPowerMeasurement(d) ==> GetDeviceID(d) in w.monitored
    ensures w0.gs <= w.gs
    ensures forall g :: |w0.gs| <= g < |w.gs| ==> NamesPowerDevice(found, w.gs[g].device)
  {
    assert forall d :: d in found && HasPowerMeasurement(d) ==> GetDeviceID(d) in PowerIDs(found);
    forall g | |w0.gs| <= g < |w.gs|
      ensures NamesPowerDevice(found, w.gs[g].device)
    {
      assert w.gs[g].device in PowerIDs(found);
    }
  }

  // What the hand-off guarantees about one device of a scan: a live goroutine serves it, and no
  // second one does unless it was unmonitored while its former goroutine still lived.
  lemma {:induction false} HandOffIsUnique(w0: System, w: System, found: seq<Device>, d: Device)
    requires PowerMonitor.StartedFrom(w0, w, PowerIDs(found)) && Mapped(w.gs, w.monitored) && Unique(w0.gs)
    requires d in found && HasPowerMeasurement(d)
    ensures var id := GetDeviceID(d);
            && Serves(w.gs, id)
            && (OnlyOne(w.gs, id) <==> id in w0.monitored || !Serves(w0.gs, id))
  {
    var id := GetDeviceID(d);
    assert id in PowerIDs(found);
    assert Live(w.gs[w.monitored[id]]);
    if id !in w0.monitored && Serves(w0.gs, id) {
      var g :| 0 <= g < |w0.gs| && Live(w0.gs[g]) && w0.gs[g].device == id;
      assert w.gs[g] == w0.gs[g];
    }
  }

  predicate OnlyOne(gs: seq<Goroutine>, id: string) {
    forall g, h :: 0 <= g < h < |gs| && Live(gs[g]) && Live(gs[h]) && gs[g].device == id ==> gs[h].device != id
  }
}
