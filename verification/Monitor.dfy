// monitoring/power.go and main.go: device goroutines, the readings channel, the data writer.

/** Goroutines as program counters.  Each stretch under a lock, each channel operation and each
    return is one atomic step; contexts may be cancelled at any time, and ticks, reads and
    configuration wake-ups come in any order. */
module Monitor {

  // Spawned: not yet in its loop.  Polling: in the select.  Ticked: past the context check,
  // reading the device.  Returning: left the loop, cleanup to run.  Cleaned: map entry deleted,
  // wg.Done to run.
  datatype Pc = Spawned | Polling | Ticked | Sending(value: int) | Returning | Cleaned | Done

  datatype Goroutine = Goroutine(device: string, pc: Pc, cancelled: bool)

  // Where the first caller of Stop stands; later callers return at once.
  // Waiting: about to look at the wait group.  Blocked: found it counting.  Woken: released by the
  // Done that brought it to zero, but not running yet.
  datatype Stopper = Running | Waiting | Blocked | Woken | Closing | Stopped

  datatype Writer = Receiving | Writing(i: nat) | Exited

  datatype Reading = Reading(device: string, value: int)

  // `monitored` maps a device to the goroutine its cancel function belongs to.  `produced` lists
  // every reading that reached the channel send; the other sequences and sets hold indices of it.
  datatype System = System(
    gs: seq<Goroutine>, monitored: map<string, nat>, wg: int, stopped: bool, stopper: Stopper,
    capacity: nat, produced: seq<Reading>, dropped: set<nat>, buffer: seq<nat>, closes: nat,
    taken: seq<nat>, written: seq<nat>, writer: Writer, panicked: bool)

  datatype Action =
    | Start(device: string)
    | StopDevice(device: string)
    | Cancel(g: nat)
    | Begin(g: nat)
    | SeeDone(g: nat)
    | Tick(g: nat)
    | ReadFail(g: nat)
    | ReadOk(g: nat, value: int)
    | Send(g: nat)
    | ConfigWake(g: nat)
    | CleanUp(g: nat)
    | WgDone(g: nat)
    | StopCall
    | WaitBlocks
    | WaitReturns
    | CloseChannel
    | Take
    | WriteDb
    | WriterSeesClosed
    | WriterSeesDone

  predicate At(s: System, g: nat, pc: Pc) {
    g < |s.gs| && s.gs[g].pc == pc
  }

  predicate Enabled(s: System, a: Action) {
    match a
    case Start(_) => true
    case StopDevice(_) => true
    case Cancel(g) => g < |s.gs|
    case Begin(g) => At(s, g, Spawned)
    case SeeDone(g) => At(s, g, Polling) && s.gs[g].cancelled
    case Tick(g) => At(s, g, Polling)
    case ReadFail(g) => At(s, g, Ticked)
    case ReadOk(g, _) => At(s, g, Ticked)
    case Send(g) => g < |s.gs| && s.gs[g].pc.Sending?
    case ConfigWake(g) => At(s, g, Polling)
    case CleanUp(g) => At(s, g, Returning)
    case WgDone(g) => At(s, g, Cleaned)
    case StopCall => true
    case WaitBlocks => s.stopper == Waiting && s.wg > 0
    case WaitReturns => (s.stopper == Waiting && s.wg == 0) || s.stopper == Woken
    case CloseChannel => s.stopper == Closing
    case Take => s.writer == Receiving && s.buffer != []
    case WriteDb => s.writer.Writing?
    case WriterSeesClosed => s.writer == Receiving && s.buffer == [] && s.closes > 0
    case WriterSeesDone => s.writer == Receiving
  }

  predicate Live(g: Goroutine) { g.pc != Cleaned && g.pc != Done }

  // A step of a goroutine; a configuration wake-up only returns to the select.
  predicate Working(a: Action) {
    a.Begin? || a.SeeDone? || a.Tick? || a.ReadFail? || a.ReadOk? || a.Send? || a.CleanUp? || a.WgDone?
  }

  // Where an action of a goroutine takes it.
  function PcAfter(s: System, a: Action): (pc: Pc)
    requires Enabled(s, a) && Working(a)
    ensures pc == Done <==> a.WgDone?
    ensures s.gs[a.g].pc != Done
    ensures pc != Cleaned && pc != Done <==> Live(s.gs[a.g]) && !a.CleanUp?
  {
    match a
    case Begin(_) => Polling
    case SeeDone(_) => Returning
    case Tick(g) => if s.gs[g].cancelled then Returning else Ticked
    case ReadFail(_) => Polling
    case ReadOk(_, value) => Sending(value)
    case Send(g) => if s.closes > 0 then s.gs[g].pc else Polling
    case CleanUp(_) => Cleaned
    case WgDone(_) => Done
  }

  function Move(s: System, g: nat, pc: Pc): System
    requires g < |s.gs|
  {
    s.(gs := s.gs[g := s.gs[g].(pc := pc)])
  }

  function CancelAll(gs: seq<Goroutine>, which: set<nat>): (r: seq<Goroutine>)
    ensures |r| == |gs|
    ensures forall i :: 0 <= i < |gs| ==> r[i] == if i in which then gs[i].(cancelled := true) else gs[i]
  {
    seq(|gs|, i requires 0 <= i < |gs| => if i in which then gs[i].(cancelled := true) else gs[i])
  }

  function Step(s: System, a: Action): System
    requires Enabled(s, a)
  {
    match a
    case Start(device) =>
      if device in s.monitored then s
      else
        s.(gs := s.gs + [Goroutine(device, Spawned, false)],
           monitored := s.monitored[device := |s.gs|], wg := s.wg + 1)
    case StopDevice(device) =>
      if device in s.monitored
      then s.(gs := CancelAll(s.gs, {s.monitored[device]}), monitored := s.monitored - {device})
      else s
    case Cancel(g) => s.(gs := CancelAll(s.gs, {g}))
    case Begin(_) | SeeDone(_) | Tick(_) | ReadFail(_) | ReadOk(_, _) => Move(s, a.g, PcAfter(s, a))
    case Send(g) =>
      if s.closes > 0 then s.(panicked := true)
      else
        var s' := Move(s, g, PcAfter(s, a)).(produced := s.produced + [Reading(s.gs[g].device, s.gs[g].pc.value)]);
        if |s.buffer| < s.capacity then s'.(buffer := s.buffer + [|s.produced|])
        else s'.(dropped := s.dropped + {|s.produced|})
    case ConfigWake(_) => s
    case CleanUp(g) => Move(s, g, PcAfter(s, a)).(monitored := s.monitored - {s.gs[g].device})
    case WgDone(g) =>
      Move(s, g, PcAfter(s, a)).(
        wg := s.wg - 1, panicked := s.panicked || s.wg <= 0,
        stopper := if s.stopper == Blocked && s.wg == 1 then Woken else s.stopper)
    case StopCall =>
      if s.stopped then s
      else s.(stopped := true, stopper := Waiting, gs := CancelAll(s.gs, s.monitored.Values))
    case WaitBlocks => s.(stopper := Blocked)
    // A waiter that was woken panics if it finds the wait group counting again.
    case WaitReturns => s.(stopper := Closing, panicked := s.panicked || (s.stopper == Woken && s.wg != 0))
    case CloseChannel => s.(stopper := Stopped, closes := s.closes + 1, panicked := s.panicked || s.closes > 0)
    case Take => s.(writer := Writing(s.buffer[0]), taken := s.taken + [s.buffer[0]], buffer := s.buffer[1..])
    case WriteDb => s.(writer := Receiving, written := s.written + [s.writer.i])
    case WriterSeesClosed => s.(writer := Exited)
    case WriterSeesDone => s.(writer := Exited)
  }

  predicate Legal(s: System, acts: seq<Action>)
    decreases |acts|
  {
    acts != [] ==> Enabled(s, acts[0]) && Legal(Step(s, acts[0]), acts[1..])
  }

  function Run(s: System, acts: seq<Action>): System
    requires Legal(s, acts)
    decreases |acts|
  {
    if acts == [] then s else Run(Step(s, acts[0]), acts[1..])
  }

  predicate Init(s: System) {
    && s.gs == [] && s.monitored == map[] && s.wg == 0 && !s.stopped && s.stopper == Running
    && s.capacity >= 1 && s.produced == [] && s.dropped == {} && s.buffer == [] && s.closes == 0
    && s.taken == [] && s.written == [] && s.writer == Receiving && !s.panicked
  }

  // ---------- What every run keeps ----------

  function CountLive(gs: seq<Goroutine>): nat {
    if gs == [] then 0 else CountLive(gs[..|gs| - 1]) + (if Live(gs[|gs| - 1]) then 1 else 0)
  }

  function CountNotDone(gs: seq<Goroutine>): nat {
    if gs == [] then 0 else CountNotDone(gs[..|gs| - 1]) + (if gs[|gs| - 1].pc != Done then 1 else 0)
  }

  // Every map entry belongs to a live goroutine of its device.
  predicate Mapped(gs: seq<Goroutine>, monitored: map<string, nat>) {
    forall d :: d in monitored ==> monitored[d] < |gs| && gs[monitored[d]].device == d && Live(gs[monitored[d]])
  }

  predicate Tally(s: System) {
    && Mapped(s.gs, s.monitored)
    && s.wg == CountNotDone(s.gs)
    && (s.stopped <==> s.stopper != Running)
    && s.closes == (if s.stopper == Stopped then 1 else 0)
    && (s.stopper == Blocked ==> s.wg > 0)
  }

  lemma {:induction false} CountChange(gs: seq<Goroutine>, g: nat, x: Goroutine)
    requires g < |gs|
    ensures CountNotDone(gs[g := x])
            == CountNotDone(gs) - (if gs[g].pc != Done then 1 else 0) + (if x.pc != Done then 1 else 0)
  {
    var n := |gs| - 1;
    var hs := gs[g := x];
    if g == n {
      assert hs[..n] == gs[..n];
    } else {
      CountChange(gs[..n], g, x);
      assert hs[..n] == gs[..n][g := x];
    }
  }

  lemma {:induction false} CountIgnoresCancel(gs: seq<Goroutine>, which: set<nat>)
    ensures CountNotDone(CancelAll(gs, which)) == CountNotDone(gs)
  {
    if gs != [] {
      var n := |gs| - 1;
      CountIgnoresCancel(gs[..n], which);
      assert CancelAll(gs, which)[..n] == CancelAll(gs[..n], which);
    }
  }

  lemma {:induction false} CountWithOneMore(gs: seq<Goroutine>, x: Goroutine)
    ensures CountNotDone(gs + [x]) == CountNotDone(gs) + (if x.pc != Done then 1 else 0)
  {
    assert (gs + [x])[..|gs|] == gs;
  }

  lemma {:induction false} NoneLeft(gs: seq<Goroutine>, g: nat)
    requires g < |gs| && gs[g].pc != Done
    ensures CountNotDone(gs) > 0
  {
    if g < |gs| - 1 { NoneLeft(gs[..|gs| - 1], g); }
  }

  // Whom an action cancels.
  function Hit(s: System, a: Action): set<nat> {
    match a
    case Cancel(g) => {g}
    case StopDevice(device) => if device in s.monitored then {s.monitored[device]} else {}
    case StopCall => if s.stopped then {} else s.monitored.Values
    case _ => {}
  }

  // Besides making a goroutine, an action moves one or cancels some; a life ends only by cleaning
  // up.
  lemma {:induction false} GsMoved(s: System, a: Action)
    requires Enabled(s, a) && Working(a)
    ensures a.g < |s.gs|
    ensures Step(s, a).gs == s.gs[a.g := s.gs[a.g].(pc := PcAfter(s, a))]
  {
    if PcAfter(s, a) == s.gs[a.g].pc { assert s.gs == s.gs[a.g := s.gs[a.g]]; }
  }

  lemma {:induction false} GsCancelled(s: System, a: Action)
    requires Enabled(s, a) && !a.Start? && !Working(a)
    ensures Step(s, a).gs == CancelAll(s.gs, Hit(s, a))
  {
    assert CancelAll(s.gs, {}) == s.gs;
  }

  // How each action changes the number of goroutines that the wait group is to count.
  lemma {:induction false} StepCount(s: System, a: Action)
    requires Enabled(s, a)
    ensures CountNotDone(Step(s, a).gs)
            == CountNotDone(s.gs) + (if Spawns(s, a) then 1 else 0) - (if a.WgDone? then 1 else 0)
  {
    if a.Start? {
      CountWithOneMore(s.gs, Goroutine(a.device, Spawned, false));
    } else {
      if Working(a) { GsMoved(s, a); } else { GsCancelled(s, a); }
      var gs' := Step(s, a).gs;
      hide Step, Enabled;
      if Working(a) { CountChange(s.gs, a.g, gs'[a.g]); } else { CountIgnoresCancel(s.gs, Hit(s, a)); }
    }
  }

  lemma {:induction false} StepKeepsTally(s: System, a: Action)
    requires Tally(s) && Enabled(s, a)
    ensures Tally(Step(s, a))
  {
    StepCount(s, a);
    StepKeepsMapped(s, a);
  }

  // An action that makes no goroutine leaves every device in place, and ends a life only by
  // cleaning up.
  lemma {:induction false} StepShape(s: System, a: Action)
    requires Enabled(s, a) && !a.Start?
    ensures var gs, gs' := s.gs, Step(s, a).gs;
            && |gs'| == |gs|
            && forall g :: 0 <= g < |gs| ==>
                 && gs'[g].device == gs[g].device
                 && (Live(gs'[g]) <==> Live(gs[g]) && a != CleanUp(g))
                 && (gs'[g].cancelled <==> gs[g].cancelled || g in Hit(s, a))
  {
    if Working(a) { GsMoved(s, a); } else { GsCancelled(s, a); }
    hide Step, Enabled;
  }

  lemma {:induction false} StepMap(s: System, a: Action)
    requires Enabled(s, a) && !a.Start?
    ensures Step(s, a).monitored
            == if a.StopDevice? then s.monitored - {a.device}
               else if a.CleanUp? then s.monitored - {s.gs[a.g].device}
               else s.monitored
  {
  }

  lemma {:induction false} StepKeepsMapped(s: System, a: Action)
    requires Mapped(s.gs, s.monitored) && Enabled(s, a)
    ensures Mapped(Step(s, a).gs, Step(s, a).monitored)
  {
    if !a.Start? {
      StepShape(s, a);
      StepMap(s, a);
      hide Step;
    }
  }

  lemma {:induction false} RunKeepsTally(s: System, acts: seq<Action>)
    requires Tally(s) && Legal(s, acts)
    ensures Tally(Run(s, acts))
    decreases |acts|
  {
    if acts != [] {
      StepKeepsTally(s, acts[0]);
      RunKeepsTally(Step(s, acts[0]), acts[1..]);
    }
  }

  // ---------- Who leaves ----------

  predicate LeavingIsCancelled(gs: seq<Goroutine>) {
    forall g :: 0 <= g < |gs| && gs[g].pc in {Returning, Cleaned, Done} ==> gs[g].cancelled
  }

  lemma {:induction false} StepKeepsLeaving(s: System, a: Action)
    requires LeavingIsCancelled(s.gs) && Enabled(s, a)
    ensures LeavingIsCancelled(Step(s, a).gs)
  {
    if Working(a) {
      GsMoved(s, a);
      hide Step;
    } else if !a.Start? {
      GsCancelled(s, a);
      hide Step;
    }
  }

  // In every run a goroutine leaves its loop only after its context was cancelled.
  lemma {:induction false} LeavesOnlyCancelled(s0: System, acts: seq<Action>)
    requires LeavingIsCancelled(s0.gs) && Legal(s0, acts)
    ensures LeavingIsCancelled(Run(s0, acts).gs)
    decreases |acts|
  {
    if acts != [] {
      StepKeepsLeaving(s0, acts[0]);
      LeavesOnlyCancelled(Step(s0, acts[0]), acts[1..]);
    }
  }

  // ---------- One goroutine per device ----------

  // The map and the goroutines that have not run their cleanup match one to one.
  predicate Matched(gs: seq<Goroutine>, monitored: map<string, nat>) {
    && Mapped(gs, monitored)
    && (forall g :: 0 <= g < |gs| && Live(gs[g]) ==> gs[g].device in monitored && monitored[gs[g].device] == g)
  }

  predicate NoSingleStop(acts: seq<Action>) {
    forall i :: 0 <= i < |acts| ==> !acts[i].StopDevice?
  }

  lemma {:induction false} StepKeepsMatch(s: System, a: Action)
    requires Matched(s.gs, s.monitored) && Enabled(s, a) && !a.StopDevice?
    ensures Matched(Step(s, a).gs, Step(s, a).monitored)
  {
    StepKeepsMapped(s, a);
    if !a.Start? {
      StepShape(s, a);
      StepMap(s, a);
      hide Step;
    }
  }

  lemma {:induction false} RunKeepsMatch(s: System, acts: seq<Action>)
    requires Matched(s.gs, s.monitored) && Legal(s, acts) && NoSingleStop(acts)
    ensures Matched(Run(s, acts).gs, Run(s, acts).monitored)
    decreases |acts|
  {
    if acts != [] {
      StepKeepsMatch(s, acts[0]);
      RunKeepsMatch(Step(s, acts[0]), acts[1..]);
    }
  }

  lemma {:induction false} CountsGrow(gs: seq<Goroutine>)
    ensures CountLive(gs) <= CountNotDone(gs)
  {
    if gs != [] { CountsGrow(gs[..|gs| - 1]); }
  }

  function LiveOnes(gs: seq<Goroutine>): set<nat> {
    set g: nat | g < |gs| && Live(gs[g])
  }

  lemma {:induction false} LiveOnesCount(gs: seq<Goroutine>)
    ensures |LiveOnes(gs)| == CountLive(gs)
  {
    if gs == [] {
      assert LiveOnes(gs) == {};
    } else {
      var n := |gs| - 1;
      LiveOnesCount(gs[..n]);
      assert LiveOnes(gs) == LiveOnes(gs[..n]) + (if Live(gs[n]) then {n} else {});
    }
  }

  lemma {:induction false} DistinctValues(m: map<string, nat>)
    requires forall d, e :: d in m && e in m && m[d] == m[e] ==> d == e
    ensures |m.Values| == |m|
    decreases |m|
  {
    if m == map[] {
      assert m.Values == {};
    } else {
      var d :| d in m;
      DistinctValues(m - {d});
      assert m.Keys == (m - {d}).Keys + {d};
      assert m.Values == (m - {d}).Values + {m[d]};
    }
  }

  // There are no more map entries than live goroutines, and equally many if the two match.
  lemma {:induction false} MappedCounts(gs: seq<Goroutine>, monitored: map<string, nat>)
    requires Mapped(gs, monitored)
    ensures |monitored| <= CountLive(gs) <= CountNotDone(gs)
    ensures Matched(gs, monitored) ==> |monitored| == CountLive(gs)
  {
    CountsGrow(gs);
    LiveOnesCount(gs);
    DistinctValues(monitored);
    FewerThan(monitored.Values, LiveOnes(gs));
    if Matched(gs, monitored) {
      assert forall g :: g in LiveOnes(gs) ==> monitored[gs[g].device] in monitored.Values;
      FewerThan(LiveOnes(gs), monitored.Values);
    }
  }

  lemma {:induction false} FewerThan(a: set<nat>, b: set<nat>)
    requires a <= b
    ensures |a| <= |b|
  {
    if a != {} {
      var x :| x in a;
      FewerThan(a - {x}, b - {x});
    }
  }

  // Over every run without single-device stops the monitored map is in bijection with the
  // goroutines that have not run their cleanup: one per device, and the wait group counts at least
  // as many.
  lemma {:induction false} OneGoroutinePerDevice(s0: System, acts: seq<Action>)
    requires Init(s0) && Legal(s0, acts) && NoSingleStop(acts)
    ensures var s := Run(s0, acts);
            && Unique(s.gs)
            && (forall d :: d in s.monitored <==> Serves(s.gs, d))
            && |s.monitored| == CountLive(s.gs) <= s.wg == CountNotDone(s.gs)
  {
    RunKeepsTally(s0, acts);
    RunKeepsMatch(s0, acts);
    var s := Run(s0, acts);
    MappedCounts(s.gs, s.monitored);
    forall d | d in s.monitored
      ensures Serves(s.gs, d)
    {
      assert Live(s.gs[s.monitored[d]]);
    }
  }

  // No device has two live goroutines.
  predicate Unique(gs: seq<Goroutine>) {
    forall g, h :: 0 <= g < h < |gs| && Live(gs[g]) && Live(gs[h]) ==> gs[g].device != gs[h].device
  }

  // Some live goroutine serves the device.
  predicate Serves(gs: seq<Goroutine>, device: string) {
    exists g :: 0 <= g < |gs| && Live(gs[g]) && gs[g].device == device
  }

  // A start that makes a goroutine.
  predicate Spawns(s: System, a: Action) { a.Start? && a.device !in s.monitored }

  // A start that makes one although the device's former goroutine is still at work: it was
  // stopped singly and has not cleaned up.
  predicate Restart(s: System, a: Action) {
    Spawns(s, a) && Serves(s.gs, a.device)
  }

  // A single step leaves one goroutine per device exactly if it is no such restart.
  lemma {:induction false} UniqueKeptIff(s: System, a: Action)
    requires Unique(s.gs) && Enabled(s, a)
    ensures Unique(Step(s, a).gs) <==> !Restart(s, a)
  {
    var gs, gs' := s.gs, Step(s, a).gs;
    if Spawns(s, a) {
      var n := |gs|;
      assert gs'[n] == Goroutine(a.device, Spawned, false) && Live(gs'[n]);
      if Serves(gs, a.device) {
        var g :| 0 <= g < n && Live(gs[g]) && gs[g].device == a.device;
        assert gs'[g] == gs[g];
      }
    } else if !a.Start? {
      StepShape(s, a);
    }
  }

  predicate NoRestart(s: System, acts: seq<Action>)
    requires Legal(s, acts)
    decreases |acts|
  {
    acts != [] ==> !Restart(s, acts[0]) && NoRestart(Step(s, acts[0]), acts[1..])
  }

  predicate AlwaysUnique(s: System, acts: seq<Action>)
    requires Legal(s, acts)
    decreases |acts|
  {
    Unique(s.gs) && (acts != [] ==> AlwaysUnique(Step(s, acts[0]), acts[1..]))
  }

  // And so for whole runs: single-device stops or not, each device has at most one live goroutine
  // throughout exactly if nothing is restarted too early.
  lemma {:induction false} AlwaysUniqueIff(s: System, acts: seq<Action>)
    requires Unique(s.gs) && Legal(s, acts)
    ensures AlwaysUnique(s, acts) <==> NoRestart(s, acts)
    decreases |acts|
  {
    if acts != [] {
      var s' := Step(s, acts[0]);
      UniqueKeptIff(s, acts[0]);
      if Unique(s'.gs) {
        AlwaysUniqueIff(s', acts[1..]);
      }
    }
  }
}
