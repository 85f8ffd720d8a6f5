// monitoring/power.go: the methods of PowerMonitor that touch its map, wait group and flag.

/** The class behind the protocol of Monitor.  Its ghost field `world` is a state of that
    protocol and every method takes it one step, or the steps of a loop, further. */
module PowerMonitor {
  import opened Basics
  import opened Monitor
  import opened Shutdown

  class PowerMonitor {
    // A cancel function is the number of the goroutine whose context it cancels.
    var monitoredDevices: map<string, nat>
    var wg: int
    var stopped: bool
    var spawned: nat
    var cancelled: set<nat>
    ghost var world: System

    ghost predicate Valid()
      reads this
    {
      && world.monitored == monitoredDevices && world.wg == wg && world.stopped == stopped
      && |world.gs| == spawned && Tally(world)
      && (forall g :: 0 <= g < spawned ==> (world.gs[g].cancelled <==> g in cancelled))
      && (forall g :: g in cancelled ==> g < spawned)
    }

    constructor (channelSize: nat)
      requires channelSize >= 1
      ensures Valid() && Init(world) && world.capacity == channelSize
    {
      monitoredDevices, wg, stopped, spawned, cancelled := map[], 0, false, 0, {};
      world := System([], map[], 0, false, Running, channelSize, [], {}, [], 0, [], [], Receiving, false);
    }

    // The context passed in is live.
    method StartMonitoringDevice(deviceID: string) returns (started: bool)
      requires Valid()
      modifies this
      ensures Valid() && world == Step(old(world), Start(deviceID))
      ensures started <==> deviceID !in old(monitoredDevices)
      // The device then has one live goroutine, unless a former one is still on its way out.
      ensures old(Unique(world.gs)) ==> (Unique(world.gs) <==> started ==> !old(Serves(world.gs, deviceID)))
    {
      StartEffect(world, deviceID);
      if Unique(world.gs) { UniqueKeptIff(world, Start(deviceID)); }
      hide Unique, Serves, Tally, Step;
      world := Step(world, Start(deviceID));
      if deviceID in monitoredDevices { return false; }
      monitoredDevices := monitoredDevices[deviceID := spawned];
      wg := wg + 1;
      spawned := spawned + 1;
      return true;
    }

    // Starts what is not yet monitored, also on a monitor that has been stopped.
    method StartAll(deviceIDs: seq<string>)
      requires Valid()
      modifies this
      ensures Valid() && StartedFrom(old(world), world, Elements(deviceIDs))
    {
      var i := 0;
      while i < |deviceIDs|
        invariant i <= |deviceIDs| && Valid()
        invariant StartedFrom(old(world), world, Elements(deviceIDs[..i]))
      {
        ghost var before := world;
        var started := StartMonitoringDevice(deviceIDs[i]);
        StartedOneMore(old(world), before, world, Elements(deviceIDs[..i]), deviceIDs[i]);
        ElementsNext(deviceIDs, i);
        i := i + 1;
      }
      assert deviceIDs[..i] == deviceIDs;
    }

    method StopMonitoringDevice(deviceID: string)
      requires Valid()
      modifies this
      ensures Valid() && world == Step(old(world), StopDevice(deviceID))
    {
      StepKeepsTally(world, StopDevice(deviceID));
      world := Step(world, StopDevice(deviceID));
      if deviceID in monitoredDevices {
        cancelled := cancelled + {monitoredDevices[deviceID]};
        monitoredDevices := monitoredDevices - {deviceID};
      }
    }

    // Yes means that a live goroutine serves the device.  No means that none does, or, after
    // single-device stops, that those which still do have been cancelled.
    method IsMonitoring(deviceID: string) returns (yes: bool)
      requires Valid()
      ensures yes == (deviceID in world.monitored)
      ensures yes ==> Serves(world.gs, deviceID)
      ensures Matched(world.gs, world.monitored) ==> (yes <==> Serves(world.gs, deviceID))
      ensures Covered(world.gs, world.monitored) && !yes ==>
                forall g :: 0 <= g < |world.gs| && Live(world.gs[g]) && world.gs[g].device == deviceID ==>
                  world.gs[g].cancelled
    {
      yes := deviceID in monitoredDevices;
      assert yes ==> Live(world.gs[monitoredDevices[deviceID]]);
    }

    method GetMonitoredDeviceCount() returns (n: nat)
      requires Valid()
      ensures n <= CountLive(world.gs) <= wg
      ensures Matched(world.gs, world.monitored) ==> n == CountLive(world.gs)
    {
      MappedCounts(world.gs, world.monitored);
      n := |monitoredDevices|;
    }

    // The first half of Stop: false means an earlier call has already begun.
    method BeginStop() returns (first: bool)
      requires Valid()
      modifies this
      ensures Valid() && world == Step(old(world), StopCall) && first == !old(stopped) && stopped
      // No live goroutine is left uncancelled exactly if each was in the map or cancelled before.
      ensures first ==> (Swept(world.gs) <==> old(Covered(world.gs, world.monitored)))
    {
      hide Covered, Swept, Tally, Step, CancelAll;
      StopCallEffect(world);
      ghost var swept := Step(world, StopCall);
      if stopped {
        world := swept;
        return false;
      }
      stopped := true;
      ghost var was := cancelled;
      var rest := monitoredDevices.Keys;
      while rest != {}
        invariant rest <= monitoredDevices.Keys
        invariant monitoredDevices == old(monitoredDevices) && spawned == old(spawned) && wg == old(wg) && stopped
        invariant was <= cancelled <= was + monitoredDevices.Values
        invariant forall d :: d in monitoredDevices && d !in rest ==> monitoredDevices[d] in cancelled
      {
        var d :| d in rest;
        cancelled := cancelled + {monitoredDevices[d]};
        rest := rest - {d};
      }
      assert cancelled == was + monitoredDevices.Values;
      world := swept;
      return true;
    }

    // The second half, from where wg.Wait can return on.  It panics exactly if the wait was woken and
    // the counter has risen again.
    method FinishStop() returns (panics: bool)
      requires Valid() && Enabled(world, WaitReturns)
      modifies this`world
      ensures Valid()
      ensures panics <==> old(world.stopper) == Woken && wg != 0
      ensures panics ==> world == Step(old(world), WaitReturns) && world.panicked
      ensures !panics ==> world == Step(Step(old(world), WaitReturns), CloseChannel)
      ensures !panics ==> world.closes == 1 && (world.panicked <==> old(world.panicked))
      ensures !panics ==> forall g :: 0 <= g < |world.gs| ==> world.gs[g].pc == Done
    {
      panics := wg != 0;
      StepKeepsTally(world, WaitReturns);
      world := Step(world, WaitReturns);
      if panics { return; }
      StepKeepsTally(world, CloseChannel);
      world := Step(world, CloseChannel);
      forall g | 0 <= g < |world.gs| ensures world.gs[g].pc == Done {
        if world.gs[g].pc != Done { NoneLeft(world.gs, g); }
      }
    }
  }

  lemma {:induction false} StartEffect(w: System, device: string)
    requires Tally(w)
    ensures var w' := Step(w, Start(device));
            && Tally(w') && w'.stopped == w.stopped
            && if device in w.monitored then w' == w
               else && w'.gs == w.gs + [Goroutine(device, Spawned, false)]
                    && w'.monitored == w.monitored[device := |w.gs|] && w'.wg == w.wg + 1
  {
    StepKeepsTally(w, Start(device));
  }

  lemma {:induction false} StopCallEffect(w: System)
    requires Tally(w)
    ensures var w' := Step(w, StopCall);
            && Tally(w') && w'.monitored == w.monitored && w'.wg == w.wg && w'.stopped && |w'.gs| == |w.gs|
            && (w.stopped ==> w' == w)
            && (!w.stopped ==>
                  && (forall g :: 0 <= g < |w.gs| ==>
                        (w'.gs[g].cancelled <==> w.gs[g].cancelled || g in w.monitored.Values))
                  && (forall d :: d in w.monitored ==> w.monitored[d] < |w.gs|)
                  && (Swept(w'.gs) <==> Covered(w.gs, w.monitored)))
  {
    StepKeepsTally(w, StopCall);
    if !w.stopped { SweepReachesIff(w); }
  }

  // From w0 to w every device of `asked` has come to be monitored, no goroutine that existed
  // changed, and one was made for exactly those asked devices that were not monitored.
  ghost predicate StartedFrom(w0: System, w: System, asked: set<string>) {
    && w0.gs <= w.gs
    && (forall d :: d in w.monitored <==> d in w0.monitored || d in asked)
    && (forall d :: d in w0.monitored ==> d in w.monitored && w.monitored[d] == w0.monitored[d])
    && (forall d :: d in asked && d !in w0.monitored ==>
          |w0.gs| <= w.monitored[d] < |w.gs| && w.gs[w.monitored[d]] == Goroutine(d, Spawned, false))
    && (forall g :: |w0.gs| <= g < |w.gs| ==>
          && w.gs[g].device in asked && w.gs[g].device !in w0.monitored
          && w.gs[g].device in w.monitored && w.monitored[w.gs[g].device] == g)
    && w.stopper == w0.stopper && w.panicked == w0.panicked
  }

  lemma {:induction false} StartedNothing(w: System)
    ensures StartedFrom(w, w, {})
  {
  }

  lemma {:induction false} StartedOneMore(w0: System, w: System, w': System, asked: set<string>, d: string)
    requires StartedFrom(w0, w, asked) && w' == Step(w, Start(d))
    ensures StartedFrom(w0, w', asked + {d})
  {
  }

  // Where the map matched the goroutines it still does.
  lemma {:induction false} StartedKeepsMatch(w0: System, w: System, asked: set<string>)
    requires StartedFrom(w0, w, asked) && Matched(w0.gs, w0.monitored) && Mapped(w.gs, w.monitored)
    ensures Matched(w.gs, w.monitored)
  {
  }

  // Whatever has been stopped before: each device has one live goroutine afterwards exactly if no
  // device that was asked for and not monitored still had a live one.
  lemma {:induction false} StartedUniqueIff(w0: System, w: System, asked: set<string>)
    requires StartedFrom(w0, w, asked) && Unique(w0.gs)
    ensures Unique(w.gs) <==> forall d :: d in asked && d !in w0.monitored ==> !Serves(w0.gs, d)
  {
    forall d | d in asked && d !in w0.monitored && Serves(w0.gs, d)
      ensures !Unique(w.gs)
    {
      var g :| 0 <= g < |w0.gs| && Live(w0.gs[g]) && w0.gs[g].device == d;
      assert w.gs[g] == w0.gs[g] && Live(w.gs[w.monitored[d]]);
    }
  }
}
