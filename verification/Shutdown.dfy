// monitoring/power.go: stopping the monitor, and what starts and single stops may do to that.

/** Three questions about Stop: do its wait and its close go without a panic, does the sweep reach
    every goroutine, does the wait end.  For the first two the condition is exact. */
module Shutdown {
  import opened Monitor

  // ---------- The channel is closed safely ----------

  // A start that makes a goroutine after Stop's wait has been released by the last Done.
  predicate Late(s: System, a: Action) {
    Spawns(s, a) && s.stopper in {Woken, Closing, Stopped}
  }

  predicate OnTime(s: System, acts: seq<Action>)
    requires Legal(s, acts)
    decreases |acts|
  {
    acts != [] ==> !Late(s, acts[0]) && OnTime(Step(s, acts[0]), acts[1..])
  }

  predicate Safe(s: System) {
    && Tally(s) && !s.panicked
    && (s.stopper in {Woken, Closing, Stopped} ==> CountNotDone(s.gs) == 0)
  }

  lemma {:induction false} StepKeepsSafe(s: System, a: Action)
    requires Safe(s) && Enabled(s, a) && !Late(s, a)
    ensures Safe(Step(s, a))
  {
    StepKeepsTally(s, a);
    StepCount(s, a);
    if a.Send? || a.WgDone? { NoneLeft(s.gs, a.g); }
  }

  lemma {:induction false} RunKeepsSafe(s: System, acts: seq<Action>)
    requires Safe(s) && Legal(s, acts) && OnTime(s, acts)
    ensures Safe(Run(s, acts))
    decreases |acts|
  {
    if acts != [] {
      StepKeepsSafe(s, acts[0]);
      RunKeepsSafe(Step(s, acts[0]), acts[1..]);
    }
  }

  // Whatever is started, cancelled and stopped meanwhile, as long as no goroutine is made after
  // Stop's wait has been released: the wait returns without a panic, the channel is closed at most
  // once, only when every goroutine is done, and nothing is ever sent on it afterwards.
  lemma {:induction false} ChannelIsSafe(s0: System, acts: seq<Action>)
    requires Init(s0) && Legal(s0, acts) && OnTime(s0, acts)
    ensures var s := Run(s0, acts);
            && !s.panicked && s.closes <= 1
            && (s.closes == 1 ==> forall g :: 0 <= g < |s.gs| ==> s.gs[g].pc == Done)
            && (forall g :: 0 <= g < |s.gs| && s.gs[g].pc.Sending? ==> s.closes == 0)
  {
    RunKeepsSafe(s0, acts);
    var s := Run(s0, acts);
    forall g | 0 <= g < |s.gs| && s.gs[g].pc != Done
      ensures s.closes == 0
    {
      NoneLeft(s.gs, g);
    }
  }

  // What a new goroutine can run into: the wait that was woken for a counter of zero, or a channel
  // that is closed before its first send.
  function Collision(s: System, value: int): seq<Action> {
    match s.stopper
    case Woken => [WaitReturns]
    case Closing => [CloseChannel] + FirstReading(|s.gs|, value)
    case _ => FirstReading(|s.gs|, value)
  }

  function FirstReading(g: nat, value: int): seq<Action> {
    [Begin(g), Tick(g), ReadOk(g, value), Send(g)]
  }

  lemma {:induction false} WithoutStartsOnTime(s: System, acts: seq<Action>)
    requires Legal(s, acts) && forall i :: 0 <= i < |acts| ==> !acts[i].Start?
    ensures OnTime(s, acts)
    decreases |acts|
  {
    if acts != [] { WithoutStartsOnTime(Step(s, acts[0]), acts[1..]); }
  }

  lemma {:induction false} FirstReadingPanics(s: System, g: nat, value: int)
    requires At(s, g, Spawned) && !s.gs[g].cancelled && s.closes > 0
    ensures Legal(s, FirstReading(g, value)) && OnTime(s, FirstReading(g, value))
    ensures Run(s, FirstReading(g, value)).panicked
  {
    var s1 := Step(s, Begin(g));
    var s2 := Step(s1, Tick(g));
    var s3 := Step(s2, ReadOk(g, value));
    assert s1.gs[g].pc == Polling && s2.gs[g].pc == Ticked;
    Prepend(s3, Send(g), []);
    Prepend(s2, ReadOk(g, value), [Send(g)]);
    Prepend(s1, Tick(g), [ReadOk(g, value), Send(g)]);
    Prepend(s, Begin(g), [Tick(g), ReadOk(g, value), Send(g)]);
    WithoutStartsOnTime(s, FirstReading(g, value));
  }

  // In any run at all, a late start can be continued to a panic: of the woken wait, or by a send on
  // the closed channel.
  lemma {:induction false} LateStartCanPanic(s0: System, acts: seq<Action>, device: string, value: int)
    requires Init(s0) && Legal(s0, acts) && Late(Run(s0, acts), Start(device))
    ensures var s := Run(s0, acts);
            var s' := Step(s, Start(device));
            Legal(s', Collision(s, value)) && OnTime(s', Collision(s, value)) && Run(s', Collision(s, value)).panicked
  {
    RunKeepsTally(s0, acts);
    var s := Run(s0, acts);
    var s' := Step(s, Start(device));
    assert s'.gs[|s.gs|] == Goroutine(device, Spawned, false);
    if s.stopper == Woken {
      NoneLeft(s'.gs, |s.gs|);
      StepKeepsTally(s, Start(device));
      Prepend(s', WaitReturns, []);
    } else if s.stopper == Closing {
      FirstReadingPanics(Step(s', CloseChannel), |s.gs|, value);
      Prepend(s', CloseChannel, FirstReading(|s.gs|, value));
    } else {
      FirstReadingPanics(s', |s.gs|, value);
    }
  }

  // Late starts are the exact condition: as long as none has happened, an action opens the way to
  // a panic without a further one if and only if it is one itself.
  lemma {:induction false} PanicsIffLate(s0: System, acts: seq<Action>, a: Action)
    requires Init(s0) && Legal(s0, acts) && OnTime(s0, acts) && Enabled(Run(s0, acts), a)
    ensures var s := Run(s0, acts);
            var s' := Step(s, a);
            Late(s, a) <==> exists rest :: Legal(s', rest) && OnTime(s', rest) && Run(s', rest).panicked
  {
    RunKeepsSafe(s0, acts);
    var s := Run(s0, acts);
    if Late(s, a) {
      LateStartCanPanic(s0, acts, a.device, 0);
    } else {
      StepKeepsSafe(s, a);
      forall rest | Legal(Step(s, a), rest) && OnTime(Step(s, a), rest)
        ensures !Run(Step(s, a), rest).panicked
      {
        RunKeepsSafe(Step(s, a), rest);
      }
    }
  }

  // ---------- The sweep reaches everyone ----------

  // Each live goroutine is in the map or has been cancelled.
  predicate Covered(gs: seq<Goroutine>, monitored: map<string, nat>) {
    forall g :: 0 <= g < |gs| && Live(gs[g]) ==>
      gs[g].cancelled || (gs[g].device in monitored && monitored[gs[g].device] == g)
  }

  predicate Swept(gs: seq<Goroutine>) {
    forall g :: 0 <= g < |gs| && Live(gs[g]) ==> gs[g].cancelled
  }

  predicate Tended(s: System) {
    && Unique(s.gs) && Covered(s.gs, s.monitored)
    && (s.stopped ==> Swept(s.gs))
  }

  // A goroutine is made neither beside a live one for its device nor after Stop has begun.
  predicate Disciplined(s: System, a: Action) {
    Spawns(s, a) ==> !s.stopped && !Serves(s.gs, a.device)
  }

  predicate AllDisciplined(s: System, acts: seq<Action>)
    requires Legal(s, acts)
    decreases |acts|
  {
    acts != [] ==> Disciplined(s, acts[0]) && AllDisciplined(Step(s, acts[0]), acts[1..])
  }

  lemma {:induction false} StepKeepsCovered(s: System, a: Action)
    requires Unique(s.gs) && Covered(s.gs, s.monitored) && Enabled(s, a)
    ensures Covered(Step(s, a).gs, Step(s, a).monitored)
  {
    if !a.Start? {
      StepShape(s, a);
      StepMap(s, a);
      hide Step;
    }
  }

  lemma {:induction false} StepKeepsSwept(s: System, a: Action)
    requires Swept(s.gs) && Enabled(s, a) && !Spawns(s, a)
    ensures Swept(Step(s, a).gs)
  {
    if !a.Start? {
      StepShape(s, a);
      hide Step;
    }
  }

  // The sweep of Stop leaves no live goroutine uncancelled exactly if each was in the map or
  // cancelled before.
  lemma {:induction false} SweepReachesIff(s: System)
    requires Mapped(s.gs, s.monitored) && !s.stopped
    ensures Swept(Step(s, StopCall).gs) <==> Covered(s.gs, s.monitored)
  {
    var gs' := Step(s, StopCall).gs;
    if Swept(gs') {
      forall g | 0 <= g < |s.gs| && Live(s.gs[g]) && !s.gs[g].cancelled
        ensures s.gs[g].device in s.monitored && s.monitored[s.gs[g].device] == g
      {
        assert Live(gs'[g]);
      }
    }
  }

  lemma {:induction false} StepKeepsTended(s: System, a: Action)
    requires Tally(s) && Tended(s) && Enabled(s, a) && Disciplined(s, a)
    ensures Tended(Step(s, a))
  {
    UniqueKeptIff(s, a);
    StepKeepsCovered(s, a);
    if s.stopped { StepKeepsSwept(s, a); } else if a.StopCall? { SweepReachesIff(s); }
  }

  lemma {:induction false} RunKeepsTended(s: System, acts: seq<Action>)
    requires Tally(s) && Tended(s) && Legal(s, acts) && AllDisciplined(s, acts)
    ensures Tally(Run(s, acts)) && Tended(Run(s, acts))
    decreases |acts|
  {
    if acts != [] {
      StepKeepsTally(s, acts[0]);
      StepKeepsTended(s, acts[0]);
      RunKeepsTended(Step(s, acts[0]), acts[1..]);
    }
  }

  // With single-device stops allowed: at most one live goroutine per device, each in the map or
  // cancelled, and Stop reaches every goroutine still live.
  lemma {:induction false} StopReachesAll(s0: System, acts: seq<Action>)
    requires Init(s0) && Legal(s0, acts) && AllDisciplined(s0, acts)
    ensures var s := Run(s0, acts);
            && Unique(s.gs) && Covered(s.gs, s.monitored)
            && |s.monitored| <= CountLive(s.gs) <= s.wg
            && (s.stopped ==> Swept(s.gs))
  {
    RunKeepsTended(s0, acts);
    var s := Run(s0, acts);
    MappedCounts(s.gs, s.monitored);
  }

  // Steps a cancelled goroutine still has before it is done.
  function Rank(pc: Pc): nat {
    match pc
    case Ticked => 5
    case Sending(_) => 4
    case Spawned => 4
    case Polling => 3
    case Returning => 2
    case Cleaned => 1
    case Done => 0
  }

  // What brings a live goroutine of a cancelled context to its cleanup, and runs that.
  function WindUp(g: nat, pc: Pc): seq<Action>
    decreases Rank(pc)
  {
    match pc
    case Spawned => [Begin(g)] + WindUp(g, Polling)
    case Ticked => [ReadFail(g)] + WindUp(g, Polling)
    case Sending(_) => [Send(g)] + WindUp(g, Polling)
    case Polling => [SeeDone(g)] + WindUp(g, Returning)
    case _ => [CleanUp(g)]
  }

  lemma {:induction false} WindUpEffect(s: System, g: nat)
    requires g < |s.gs| && Live(s.gs[g]) && s.gs[g].cancelled && s.closes == 0
    ensures var acts := WindUp(g, s.gs[g].pc);
            && Legal(s, acts) && AllDisciplined(s, acts)
            && Run(s, acts).gs == s.gs[g := s.gs[g].(pc := Cleaned)]
            && Run(s, acts).monitored == s.monitored - {s.gs[g].device}
            && Run(s, acts).stopped == s.stopped && Run(s, acts).stopper == s.stopper && Run(s, acts).wg == s.wg
    decreases Rank(s.gs[g].pc)
  {
    var pc := s.gs[g].pc;
    var a := WindUp(g, pc)[0];
    var s1 := Step(s, a);
    WindUpStep(s, g);
    assert WindUp(g, pc) == [a] + WindUp(g, pc)[1..];
    hide Step, Enabled;
    if pc == Returning {
      Prepend(s, a, []);
    } else {
      WindUpEffect(s1, g);
      Prepend(s, a, WindUp(g, s1.gs[g].pc));
    }
  }

  lemma {:induction false} WindUpStep(s: System, g: nat)
    requires g < |s.gs| && Live(s.gs[g]) && s.gs[g].cancelled && s.closes == 0
    ensures var pc, acts := s.gs[g].pc, WindUp(g, s.gs[g].pc);
            && Enabled(s, acts[0]) && !acts[0].Start?
            && var s1 := Step(s, acts[0]);
            && s1.stopped == s.stopped && s1.stopper == s.stopper && s1.wg == s.wg && s1.closes == 0
            && if pc == Returning
               then acts[1..] == [] && s1.gs == s.gs[g := s.gs[g].(pc := Cleaned)]
                    && s1.monitored == s.monitored - {s.gs[g].device}
               else s1.gs == s.gs[g := s.gs[g].(pc := s1.gs[g].pc)] && s1.monitored == s.monitored
                    && Live(s1.gs[g]) && Rank(s1.gs[g].pc) < Rank(pc) && acts[1..] == WindUp(g, s1.gs[g].pc)
  {
  }

  // A restart can be continued so that the old goroutine's cleanup deletes the new one's map entry
  // and Stop then misses the new one.
  lemma {:induction false} RestartEscapesStop(s: System, device: string, g: nat)
    requires Tally(s) && Covered(s.gs, s.monitored) && !s.stopped
    requires device !in s.monitored && g < |s.gs| && Live(s.gs[g]) && s.gs[g].device == device
    ensures var s1, h := Step(s, Start(device)), |s.gs|;
            var wind := WindUp(g, s.gs[g].pc);
            && Legal(s1, wind) && AllDisciplined(s1, wind)
            && var s2 := Run(s1, wind);
            && |s2.gs| == h + 1 && device !in s2.monitored && s2.gs[h] == Goroutine(device, Spawned, false)
            && var s3 := Step(s2, StopCall);
            s3.stopped && !Swept(s3.gs)
  {
    var s1 := Step(s, Start(device));
    assert s1.gs[g] == s.gs[g];
    StepKeepsTally(s, Start(device));
    WindUpEffect(s1, g);
    RunKeepsTally(s1, WindUp(g, s.gs[g].pc));
    var s3 := Step(Run(s1, WindUp(g, s.gs[g].pc)), StopCall);
    assert Live(s3.gs[|s.gs|]) && !s3.gs[|s.gs|].cancelled;
  }

  // A run that keeps the discipline and ends with Stop begun and some live goroutine uncancelled.
  predicate MissesOne(s: System, rest: seq<Action>) {
    Legal(s, rest) && AllDisciplined(s, rest) && Run(s, rest).stopped && !Swept(Run(s, rest).gs)
  }

  // The discipline is the exact condition: as long as it has been kept, an action opens the way to
  // a Stop that misses a goroutine, without a further breach, if and only if it breaches it.
  lemma {:induction false} MissesIffUndisciplined(s0: System, acts: seq<Action>, a: Action)
    requires Init(s0) && Legal(s0, acts) && AllDisciplined(s0, acts) && Enabled(Run(s0, acts), a)
    ensures !Disciplined(Run(s0, acts), a) <==> exists rest :: MissesOne(Step(Run(s0, acts), a), rest)
  {
    RunKeepsTended(s0, acts);
    if Disciplined(Run(s0, acts), a) {
      DisciplineMissesNone(Run(s0, acts), a);
    } else {
      BreachMissesOne(Run(s0, acts), a);
    }
  }

  lemma {:induction false} DisciplineMissesNone(s: System, a: Action)
    requires Tally(s) && Tended(s) && Enabled(s, a) && Disciplined(s, a)
    ensures forall rest :: !MissesOne(Step(s, a), rest)
  {
    StepKeepsTally(s, a);
    StepKeepsTended(s, a);
    var s' := Step(s, a);
    hide Step, Tally, Disciplined;
    forall rest | Legal(s', rest) && AllDisciplined(s', rest)
      ensures !MissesOne(s', rest)
    {
      RunKeepsTended(s', rest);
    }
  }

  lemma {:induction false} BreachMissesOne(s: System, a: Action)
    requires Tally(s) && Tended(s) && Enabled(s, a) && !Disciplined(s, a)
    ensures exists rest :: MissesOne(Step(s, a), rest)
  {
    var s', d := Step(s, a), a.device;
    if s.stopped {
      assert !s'.gs[|s.gs|].cancelled;
      assert MissesOne(s', []);
    } else {
      var g: nat :| g < |s.gs| && Live(s.gs[g]) && s.gs[g].device == d;
      RestartEscapesStop(s, d, g);
      var wind := WindUp(g, s.gs[g].pc);
      hide Step;
      StopMissesOne(s', wind);
    }
  }

  lemma {:induction false} StopMissesOne(s: System, acts: seq<Action>)
    requires Legal(s, acts) && AllDisciplined(s, acts)
    requires var s' := Step(Run(s, acts), StopCall); s'.stopped && !Swept(s'.gs)
    ensures MissesOne(s, acts + [StopCall])
  {
    RunSnoc(s, acts, StopCall);
    DisciplinedSnoc(s, acts, StopCall);
  }

  lemma {:induction false} RunSnoc(s: System, acts: seq<Action>, a: Action)
    requires Legal(s, acts) && Enabled(Run(s, acts), a)
    ensures Legal(s, acts + [a]) && Run(s, acts + [a]) == Step(Run(s, acts), a)
    decreases |acts|
  {
    if acts == [] {
      Prepend(s, a, []);
    } else {
      RunSnoc(Step(s, acts[0]), acts[1..], a);
      assert (acts + [a])[1..] == acts[1..] + [a];
    }
  }

  lemma {:induction false} DisciplinedSnoc(s: System, acts: seq<Action>, a: Action)
    requires Legal(s, acts) && AllDisciplined(s, acts) && Legal(s, acts + [a]) && Disciplined(Run(s, acts), a)
    ensures AllDisciplined(s, acts + [a])
    decreases |acts|
  {
    if acts != [] {
      assert (acts + [a])[1..] == acts[1..] + [a];
      DisciplinedSnoc(Step(s, acts[0]), acts[1..], a);
    }
  }

  // Start, stop singly, start again, and let the old goroutine leave.
  function RestartRun(device: string): seq<Action> {
    [Start(device), StopDevice(device), Start(device), Begin(0), SeeDone(0), CleanUp(0)]
  }

  // After this run of a new monitor the second goroutine is alive, its map entry is gone, and Stop
  // does not reach it.
  lemma {:induction false} RestartWitness(s0: System, device: string)
    requires Init(s0)
    ensures Legal(s0, RestartRun(device))
    ensures var s := Run(s0, RestartRun(device));
            && |s.gs| == 2 && Live(s.gs[1]) && s.gs[1].device == device && device !in s.monitored
            && !Swept(Step(s, StopCall).gs)
  {
    hide Step, Enabled, Run, Legal, RestartRun, WindUp, Swept, Init;
    var s2 := StoppedSingly(s0, device);
    RestartEscapesStop(s2, device, 0);
    RestartRunParts(device);
    PrependThree(s0, Start(device), StopDevice(device), Start(device), WindUp(0, Spawned));
  }

  lemma {:induction false} PrependThree(s: System, a: Action, b: Action, c: Action, rest: seq<Action>)
    requires Enabled(s, a) && Enabled(Step(s, a), b) && Enabled(Step(Step(s, a), b), c)
    requires Legal(Step(Step(Step(s, a), b), c), rest)
    ensures Legal(s, [a] + ([b] + ([c] + rest)))
    ensures Run(s, [a] + ([b] + ([c] + rest))) == Run(Step(Step(Step(s, a), b), c), rest)
  {
    Prepend(Step(Step(s, a), b), c, rest);
    Prepend(Step(s, a), b, [c] + rest);
    Prepend(s, a, [b] + ([c] + rest));
  }

  lemma {:induction false} RestartRunParts(device: string)
    ensures RestartRun(device) == [Start(device)] + ([StopDevice(device)] + ([Start(device)] + WindUp(0, Spawned)))
  {
    assert WindUp(0, Spawned) == [Begin(0), SeeDone(0), CleanUp(0)];
  }

  lemma {:induction false} StoppedSingly(s0: System, device: string) returns (s2: System)
    requires Init(s0)
    ensures Enabled(s0, Start(device)) && Enabled(Step(s0, Start(device)), StopDevice(device))
    ensures s2 == Step(Step(s0, Start(device)), StopDevice(device)) && Enabled(s2, Start(device))
    ensures s2.gs == [Goroutine(device, Spawned, true)] && s2.monitored == map[] && !s2.stopped && Tally(s2)
  {
    var s1 := Step(s0, Start(device));
    assert s1.gs == [Goroutine(device, Spawned, false)] && s1.monitored == map[device := 0];
    StepKeepsTally(s0, Start(device));
    StepKeepsTally(s1, StopDevice(device));
    s2 := Step(s1, StopDevice(device));
    assert s2.gs == [Goroutine(device, Spawned, true)];
  }

  lemma {:induction false} Prepend(s: System, a: Action, rest: seq<Action>)
    requires Enabled(s, a) && Legal(Step(s, a), rest)
    ensures Legal(s, [a] + rest) && Run(s, [a] + rest) == Run(Step(s, a), rest)
  {
    assert ([a] + rest)[1..] == rest;
  }

  // ---------- Late starts happen ----------

  // Stop finds nothing to wait for.
  function IdleStop(): seq<Action> { [StopCall, WaitReturns] }

  // Stop waits for one goroutine, whose Done wakes it.
  function BusyStop(device: string): seq<Action> {
    [Start(device), StopCall, WaitBlocks, Begin(0), SeeDone(0), CleanUp(0), WgDone(0)]
  }

  // After either of these runs of a new monitor any start is late.
  lemma {:induction false} LateStartsHappen(s0: System, device: string, late: string)
    requires Init(s0)
    ensures Legal(s0, IdleStop()) && OnTime(s0, IdleStop())
    ensures Late(Run(s0, IdleStop()), Start(late)) && Run(s0, IdleStop()).stopper == Closing
    ensures Legal(s0, BusyStop(device)) && OnTime(s0, BusyStop(device))
    ensures Late(Run(s0, BusyStop(device)), Start(late)) && Run(s0, BusyStop(device)).stopper == Woken
  {
    IdleStopRun(s0);
    BusyStopRun(s0, device);
  }

  lemma {:induction false} IdleStopRun(s0: System)
    requires Init(s0)
    ensures Legal(s0, IdleStop()) && OnTime(s0, IdleStop())
    ensures Run(s0, IdleStop()).stopper == Closing && Run(s0, IdleStop()).monitored == map[]
  {
    var s1 := Step(s0, StopCall);
    Prepend(s1, WaitReturns, []);
    Prepend(s0, StopCall, [WaitReturns]);
    assert [StopCall] + [WaitReturns] == IdleStop();
    WithoutStartsOnTime(s0, IdleStop());
  }

  lemma {:induction false} BusyStopRun(s0: System, device: string)
    requires Init(s0)
    ensures Legal(s0, BusyStop(device)) && OnTime(s0, BusyStop(device))
    ensures Run(s0, BusyStop(device)).stopper == Woken && Run(s0, BusyStop(device)).monitored == map[]
  {
    hide Step, Enabled, Run, Legal, OnTime, BusyStop, WindUp, Init;
    var s3 := BlockedOnOne(s0, device);
    var wind := WindUp(0, Spawned);
    WindUpEffect(s3, 0);
    LastDoneWakes(Run(s3, wind));
    RunSnoc(s3, wind, WgDone(0));
    BusyStopParts(device);
    PrependThree(s0, Start(device), StopCall, WaitBlocks, wind + [WgDone(0)]);
    OneStartOnTime(s0, BusyStop(device));
  }

  lemma {:induction false} BlockedOnOne(s0: System, device: string) returns (s3: System)
    requires Init(s0)
    ensures Enabled(s0, Start(device)) && Enabled(Step(s0, Start(device)), StopCall)
    ensures Enabled(Step(Step(s0, Start(device)), StopCall), WaitBlocks)
    ensures s3 == Step(Step(Step(s0, Start(device)), StopCall), WaitBlocks)
    ensures s3.gs == [Goroutine(device, Spawned, true)] && s3.monitored == map[device := 0]
    ensures s3.stopper == Blocked && s3.wg == 1 && s3.closes == 0 && s0.stopper == Running
  {
    var s1 := Step(s0, Start(device));
    assert s1.gs == [Goroutine(device, Spawned, false)] && s1.monitored == map[device := 0];
    assert 0 in s1.monitored.Values by { assert s1.monitored[device] == 0; }
    var s2 := Step(s1, StopCall);
    assert s2.gs == [Goroutine(device, Spawned, true)];
    s3 := Step(s2, WaitBlocks);
  }

  lemma {:induction false} LastDoneWakes(s: System)
    requires At(s, 0, Cleaned) && s.stopper == Blocked && s.wg == 1
    ensures Enabled(s, WgDone(0))
    ensures Step(s, WgDone(0)).stopper == Woken && Step(s, WgDone(0)).monitored == s.monitored
  {
  }

  lemma {:induction false} OneStartOnTime(s: System, acts: seq<Action>)
    requires Legal(s, acts) && s.stopper == Running && forall i :: 1 <= i < |acts| ==> !acts[i].Start?
    ensures OnTime(s, acts)
  {
    if acts != [] { WithoutStartsOnTime(Step(s, acts[0]), acts[1..]); }
  }

  lemma {:induction false} BusyStopParts(device: string)
    ensures BusyStop(device)
            == [Start(device)] + ([StopCall] + ([WaitBlocks] + (WindUp(0, Spawned) + [WgDone(0)])))
    ensures forall i :: 1 <= i < |BusyStop(device)| ==> !BusyStop(device)[i].Start?
  {
    assert WindUp(0, Spawned) == [Begin(0), SeeDone(0), CleanUp(0)];
  }

  // ---------- Shutdown terminates ----------

  function TotalRank(gs: seq<Goroutine>): nat {
    if gs == [] then 0 else TotalRank(gs[..|gs| - 1]) + Rank(gs[|gs| - 1].pc)
  }

  function Work(acts: seq<Action>): nat {
    if acts == [] then 0 else (if Working(acts[0]) then 1 else 0) + Work(acts[1..])
  }

  lemma {:induction false} RankChange(gs: seq<Goroutine>, g: nat, x: Goroutine)
    requires g < |gs|
    ensures TotalRank(gs[g := x]) == TotalRank(gs) - Rank(gs[g].pc) + Rank(x.pc)
  {
    var n := |gs| - 1;
    var hs := gs[g := x];
    if g == n {
      assert hs[..n] == gs[..n];
    } else {
      RankChange(gs[..n], g, x);
      assert hs[..n] == gs[..n][g := x];
    }
  }

  lemma {:induction false} RankIgnoresCancel(gs: seq<Goroutine>, which: set<nat>)
    ensures TotalRank(CancelAll(gs, which)) == TotalRank(gs)
  {
    if gs != [] {
      var n := |gs| - 1;
      RankIgnoresCancel(gs[..n], which);
      assert CancelAll(gs, which)[..n] == CancelAll(gs[..n], which);
    }
  }

  lemma {:induction false} RankBound(gs: seq<Goroutine>)
    ensures TotalRank(gs) <= 5 * CountNotDone(gs)
  {
    if gs != [] { RankBound(gs[..|gs| - 1]); }
  }

  // Stop has swept, and the channel is still open for whoever has yet to send.
  predicate Draining(s: System) { Safe(s) && Tended(s) && s.stopped }

  lemma {:induction false} StepKeepsDraining(s: System, a: Action)
    requires Draining(s) && Enabled(s, a) && Disciplined(s, a)
    ensures Draining(Step(s, a))
  {
    StepKeepsSafe(s, a);
    StepKeepsTended(s, a);
  }

  lemma {:induction false} WorkLowersRank(s: System, a: Action)
    requires Enabled(s, a) && Working(a) && s.closes == 0 && Swept(s.gs)
    ensures Rank(PcAfter(s, a)) < Rank(s.gs[a.g].pc)
  {
  }

  lemma {:induction false} StepLowersRank(s: System, a: Action)
    requires Draining(s) && Enabled(s, a) && Disciplined(s, a)
    ensures TotalRank(Step(s, a).gs) + (if Working(a) then 1 else 0) <= TotalRank(s.gs)
  {
    if !a.Start? {
      if Working(a) { GsMoved(s, a); } else { GsCancelled(s, a); }
      var gs' := Step(s, a).gs;
      if Working(a) {
        NoneLeft(s.gs, a.g);
        WorkLowersRank(s, a);
        hide Step, Enabled;
        RankChange(s.gs, a.g, gs'[a.g]);
      } else {
        RankIgnoresCancel(s.gs, Hit(s, a));
      }
    }
  }

  lemma {:induction false} WorkIsBounded(s: System, acts: seq<Action>)
    requires Draining(s) && Legal(s, acts) && AllDisciplined(s, acts)
    ensures Work(acts) + TotalRank(Run(s, acts).gs) <= TotalRank(s.gs)
    ensures Draining(Run(s, acts))
    decreases |acts|
  {
    if acts != [] {
      StepKeepsDraining(s, acts[0]);
      StepLowersRank(s, acts[0]);
      WorkIsBounded(Step(s, acts[0]), acts[1..]);
    }
  }

  lemma {:induction false} DisciplinedIsOnTime(s: System, acts: seq<Action>)
    requires Tally(s) && Legal(s, acts) && AllDisciplined(s, acts)
    ensures OnTime(s, acts)
    decreases |acts|
  {
    if acts != [] {
      StepKeepsTally(s, acts[0]);
      DisciplinedIsOnTime(Step(s, acts[0]), acts[1..]);
    }
  }

  lemma {:induction false} SomeoneLeft(gs: seq<Goroutine>) returns (g: nat)
    requires CountNotDone(gs) > 0
    ensures g < |gs| && gs[g].pc != Done
  {
    if gs[|gs| - 1].pc != Done { g := |gs| - 1; } else { g := SomeoneLeft(gs[..|gs| - 1]); }
  }

  // Once Stop has swept, the goroutines make at most five steps for each one the wait group still
  // counts; until that count is zero some goroutine can step, and then the wait returns.
  lemma {:induction false} ShutdownTerminates(s0: System, before: seq<Action>, after: seq<Action>)
    requires Init(s0) && Legal(s0, before) && AllDisciplined(s0, before)
    requires var s := Run(s0, before); s.stopped && Legal(s, after) && AllDisciplined(s, after)
    ensures var s := Run(s0, before);
            var s' := Run(s, after);
            && Work(after) <= 5 * s.wg
            && (s'.wg > 0 ==> exists a :: Working(a) && Enabled(s', a))
            && (s'.wg == 0 && s'.stopper !in {Closing, Stopped} ==> Enabled(s', WaitReturns))
  {
    DisciplinedIsOnTime(s0, before);
    RunKeepsSafe(s0, before);
    RunKeepsTended(s0, before);
    var s := Run(s0, before);
    WorkIsBounded(s, after);
    var s' := Run(s, after);
    RankBound(s.gs);
    if s'.wg > 0 {
      var g := SomeoneLeft(s'.gs);
      var a := match s'.gs[g].pc
        case Spawned => Begin(g)
        case Polling => Tick(g)
        case Ticked => ReadFail(g)
        case Sending(_) => Send(g)
        case Returning => CleanUp(g)
        case _ => WgDone(g);
      assert Working(a) && Enabled(s', a);
    }
  }
}
