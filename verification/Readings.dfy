// monitoring/power.go and main.go: what becomes of the readings.

/** Every reading that reaches the channel is accounted for, in every run of the monitor. */
module Readings {
  import opened Basics
  import opened Monitor

  predicate Increasing(xs: seq<nat>) {
    forall i, j :: 0 <= i < j < |xs| ==> xs[i] < xs[j]
  }

  function InWriter(w: Writer): seq<nat> { if w.Writing? then [w.i] else [] }

  // The first n readings are either dropped or in `order`, never both, and `order` increases.
  predicate Sorted(n: nat, dropped: set<nat>, order: seq<nat>) {
    && Increasing(order)
    && (forall j :: 0 <= j < |order| ==> order[j] < n && order[j] !in dropped)
    && (forall i :: 0 <= i < n ==> i in dropped || i in order)
    && (forall i :: i in dropped ==> i < n)
  }

  // Readings leave in the order they came; each is in exactly one place; each one taken is
  // written once.
  predicate Flow(s: System) {
    && Sorted(|s.produced|, s.dropped, s.taken + s.buffer)
    && |s.buffer| <= s.capacity
    && s.taken == s.written + InWriter(s.writer)
  }

  lemma {:induction false} Append(n: nat, dropped: set<nat>, order: seq<nat>)
    requires Sorted(n, dropped, order)
    ensures Sorted(n + 1, dropped, order + [n])
  {
    assert (order + [n])[|order|] == n;
    assert forall i :: i in order ==> i in order + [n];
  }

  lemma {:induction false} Drop(n: nat, dropped: set<nat>, order: seq<nat>)
    requires Sorted(n, dropped, order)
    ensures Sorted(n + 1, dropped + {n}, order)
  {
  }

  lemma {:induction false} SendKeepsFlow(s: System, g: nat)
    requires Flow(s) && Enabled(s, Send(g))
    ensures Flow(Step(s, Send(g)))
  {
    var s', n := Step(s, Send(g)), |s.produced|;
    if s.closes == 0 {
      if |s.buffer| < s.capacity {
        Append(n, s.dropped, s.taken + s.buffer);
        assert s'.taken + s'.buffer == s.taken + s.buffer + [n];
      } else {
        Drop(n, s.dropped, s.taken + s.buffer);
      }
    }
  }

  lemma {:induction false} StepKeepsFlow(s: System, a: Action)
    requires Flow(s) && Enabled(s, a)
    ensures Flow(Step(s, a))
  {
    var s' := Step(s, a);
    match a
    case Send(g) => SendKeepsFlow(s, g);
    case Take => assert s'.taken + s'.buffer == s.taken + s.buffer;
    case _ =>
  }

  lemma {:induction false} RunKeepsFlow(s: System, acts: seq<Action>)
    requires Flow(s) && Legal(s, acts)
    ensures Flow(Run(s, acts))
    decreases |acts|
  {
    if acts != [] {
      StepKeepsFlow(s, acts[0]);
      RunKeepsFlow(Step(s, acts[0]), acts[1..]);
    }
  }

  // In every run each produced reading is exactly one of dropped, buffered
  // and taken, the buffer keeps its bound, taken and buffered readings keep the order of
  // production, and each taken reading causes one write, in that order.
  lemma {:induction false} EveryReadingAccounted(s0: System, acts: seq<Action>, i: nat)
    requires Init(s0) && Legal(s0, acts) && i < |Run(s0, acts).produced|
    ensures var s := Run(s0, acts);
            && (if i in s.dropped then i !in s.buffer && i !in s.taken else (i in s.buffer <==> i !in s.taken))
            && |s.buffer| <= s0.capacity
            && Increasing(s.taken + s.buffer)
            && s.taken == s.written + InWriter(s.writer)
  {
    RunKeepsFlow(s0, acts);
    var s := Run(s0, acts);
    CapacityFixed(s0, acts);
    forall j, k | 0 <= j < |s.taken| && 0 <= k < |s.buffer|
      ensures s.taken[j] != s.buffer[k]
    {
      assert (s.taken + s.buffer)[j] < (s.taken + s.buffer)[|s.taken| + k];
    }
    assert i in s.taken + s.buffer <==> i in s.taken || i in s.buffer;
  }

  lemma {:induction false} SendsInto(s: System, a: Action, i: nat)
    requires Flow(s) && Enabled(s, a) && i !in s.dropped
    ensures i in Step(s, a).dropped ==> a.Send? && |s.produced| == i && |s.buffer| == s.capacity
  {
  }

  // Every dropped reading was dropped by a send that met a full buffer.
  lemma {:induction false} DroppedOnlyWhenFull(s: System, acts: seq<Action>, i: nat)
    requires Flow(s) && Legal(s, acts) && i !in s.dropped && i in Run(s, acts).dropped
    ensures exists k: nat :: MetFullBuffer(s, acts, i, k)
    decreases |acts|
  {
    var s1 := Step(s, acts[0]);
    SendsInto(s, acts[0], i);
    StepKeepsFlow(s, acts[0]);
    hide Flow;
    if i in s1.dropped {
      assert acts[..0] == [];
      assert MetFullBuffer(s, acts, i, 0);
    } else {
      DroppedOnlyWhenFull(s1, acts[1..], i);
      var k: nat :| MetFullBuffer(s1, acts[1..], i, k);
      assert acts[..k + 1][1..] == acts[1..][..k];
      assert acts[..k + 1][0] == acts[0];
      assert MetFullBuffer(s, acts, i, k + 1);
    }
  }

  // The k-th action of the run sends the i-th reading into a full buffer.
  predicate MetFullBuffer(s: System, acts: seq<Action>, i: nat, k: nat) {
    && k < |acts| && acts[k].Send? && Legal(s, acts[..k])
    && var s' := Run(s, acts[..k]);
    |s'.produced| == i && |s'.buffer| == s'.capacity
  }

  lemma {:induction false} CapacityFixed(s: System, acts: seq<Action>)
    requires Legal(s, acts)
    ensures Run(s, acts).capacity == s.capacity
    decreases |acts|
  {
    if acts != [] { CapacityFixed(Step(s, acts[0]), acts[1..]); }
  }

  // A data writer that leaves because the channel is closed and empty has written every reading
  // that was not dropped, once and in order of production.
  lemma {:induction false} WriterDrainsChannel(s0: System, acts: seq<Action>)
    requires Init(s0) && Legal(s0, acts) && Enabled(Run(s0, acts), WriterSeesClosed)
    ensures var s := Run(s0, acts);
            && Increasing(s.written)
            && (forall i :: 0 <= i < |s.produced| ==> (i in s.written <==> i !in s.dropped))
            && Step(s, WriterSeesClosed).writer == Exited
  {
    RunKeepsFlow(s0, acts);
    var s := Run(s0, acts);
    assert s.taken + s.buffer == s.written;
  }

  // A data writer that has left takes and writes nothing more.
  lemma {:induction false} ExitedTakesNothing(s: System, acts: seq<Action>)
    requires Legal(s, acts) && s.writer == Exited
    ensures Run(s, acts).writer == Exited && Run(s, acts).taken == s.taken && Run(s, acts).written == s.written
    decreases |acts|
  {
    if acts != [] {
      ExitedStays(s, acts[0]);
      hide Step, Enabled;
      ExitedTakesNothing(Step(s, acts[0]), acts[1..]);
    }
  }

  lemma {:induction false} ExitedStays(s: System, a: Action)
    requires Enabled(s, a) && s.writer == Exited
    ensures Step(s, a).writer == Exited && Step(s, a).taken == s.taken && Step(s, a).written == s.written
  {
  }

  // ---------- What the readings hold ----------

  // What goroutine g read from its device, in order.
  function ReadsOf(acts: seq<Action>, g: nat): seq<int> {
    if acts == [] then []
    else
      var last := acts[|acts| - 1];
      ReadsOf(acts[..|acts| - 1], g) + (if last.ReadOk? && last.g == g then [last.value] else [])
  }

  predicate ClosedIn(acts: seq<Action>) { CloseChannel in acts }

  // The goroutines that sent on the open channel, in order.
  function Senders(acts: seq<Action>): seq<nat> {
    if acts == [] then []
    else
      var front, last := acts[..|acts| - 1], acts[|acts| - 1];
      Senders(front) + (if last.Send? && !ClosedIn(front) then [last.g] else [])
  }

  // The values among `produced` that goroutine g sent.
  function ValuesFrom(produced: seq<Reading>, senders: seq<nat>, g: nat): seq<int>
    requires |produced| == |senders|
  {
    if produced == [] then []
    else
      var n := |produced| - 1;
      ValuesFrom(produced[..n], senders[..n], g) + (if senders[n] == g then [produced[n].value] else [])
  }

  // What goroutine g has read and not sent yet.
  function Unsent(s: System, g: nat): seq<int> {
    if g < |s.gs| && s.gs[g].pc.Sending? then [s.gs[g].pc.value] else []
  }

  // Each produced reading names its sender's device, and each goroutine's values are those it read,
  // in the order it read them, but for one it may still have to send.
  ghost predicate Genuine(s: System, acts: seq<Action>) {
    && |Senders(acts)| == |s.produced|
    && (forall i :: 0 <= i < |s.produced| ==>
          Senders(acts)[i] < |s.gs| && s.produced[i].device == s.gs[Senders(acts)[i]].device)
    && (forall g: nat :: ReadsOf(acts, g) == ValuesFrom(s.produced, Senders(acts), g) + Unsent(s, g))
    && (s.closes > 0 <==> ClosedIn(acts))
  }

  lemma {:induction false} LastStep(s: System, acts: seq<Action>)
    requires Legal(s, acts) && acts != []
    ensures var front, last := acts[..|acts| - 1], acts[|acts| - 1];
            && Legal(s, front) && Enabled(Run(s, front), last)
            && Run(s, acts) == Step(Run(s, front), last)
    decreases |acts|
  {
    if |acts| > 1 {
      LastStep(Step(s, acts[0]), acts[1..]);
      assert acts[1..][..|acts| - 2] == acts[..|acts| - 1][1..];
    }
  }

  lemma {:induction false} ValuesNext(produced: seq<Reading>, senders: seq<nat>, r: Reading, h: nat, g: nat)
    requires |produced| == |senders|
    ensures ValuesFrom(produced + [r], senders + [h], g)
            == ValuesFrom(produced, senders, g) + (if h == g then [r.value] else [])
  {
    assert (produced + [r])[..|produced|] == produced && (senders + [h])[..|senders|] == senders;
  }

  // What one step produces; devices never change.
  lemma {:induction false} StepProduces(s: System, a: Action)
    requires Enabled(s, a)
    ensures var s' := Step(s, a);
            if a.Send? && s.closes == 0
            then && a.g < |s.gs| && |s'.produced| == |s.produced| + 1 && s'.produced[..|s.produced|] == s.produced
                 && s.gs[a.g].pc.Sending?
                 && s'.produced[|s.produced|] == Reading(s.gs[a.g].device, s.gs[a.g].pc.value)
            else s'.produced == s.produced
    ensures |s.gs| <= |Step(s, a).gs|
    ensures forall g :: 0 <= g < |s.gs| ==> Step(s, a).gs[g].device == s.gs[g].device
    ensures Step(s, a).closes > 0 <==> s.closes > 0 || a.CloseChannel?
  {
    if !a.Start? { StepShape(s, a); }
  }

  // What one step reads, sends and leaves unsent, for each goroutine.
  lemma {:induction false} StepIsGenuine(s: System, a: Action, g: nat)
    requires Enabled(s, a)
    ensures var s' := Step(s, a);
            if a.Send? && s.closes == 0
            then a.g < |s.gs| && s.gs[a.g].pc.Sending?
                 && Unsent(s, g) == (if a.g == g then [s.gs[a.g].pc.value] else []) + Unsent(s', g)
            else Unsent(s', g) == Unsent(s, g) + (if a.ReadOk? && a.g == g then [a.value] else [])
  {
    if Working(a) {
      GsMoved(s, a);
      hide Step;
    } else if !a.Start? {
      GsCancelled(s, a);
      hide Step;
    }
  }

  lemma {:induction false} NextAction(acts: seq<Action>, a: Action, g: nat)
    ensures ReadsOf(acts + [a], g) == ReadsOf(acts, g) + (if a.ReadOk? && a.g == g then [a.value] else [])
    ensures Senders(acts + [a]) == Senders(acts) + (if a.Send? && !ClosedIn(acts) then [a.g] else [])
  {
    assert (acts + [a])[..|acts|] == acts;
  }

  lemma {:induction false} NextIsGenuine(s: System, acts: seq<Action>, a: Action)
    requires Genuine(s, acts) && Enabled(s, a)
    ensures Genuine(Step(s, a), acts + [a])
  {
    var s', all := Step(s, a), acts + [a];
    assert all[..|acts|] == acts;
    StepProduces(s, a);
    hide Step, Enabled;
    forall i | 0 <= i < |s.produced|
      ensures Senders(acts)[i] < |s'.gs| && s'.produced[i].device == s'.gs[Senders(acts)[i]].device
    {
      assert s'.produced[i] == s.produced[i];
    }
    forall g: nat
      ensures ReadsOf(all, g) == ValuesFrom(s'.produced, Senders(all), g) + Unsent(s', g)
    {
      NextValues(s, acts, a, g);
    }
  }

  lemma {:induction false} NextValues(s: System, acts: seq<Action>, a: Action, g: nat)
    requires Enabled(s, a) && |Senders(acts)| == |s.produced| && (s.closes > 0 <==> ClosedIn(acts))
    requires ReadsOf(acts, g) == ValuesFrom(s.produced, Senders(acts), g) + Unsent(s, g)
    ensures var s', all := Step(s, a), acts + [a];
            && |Senders(all)| == |s'.produced|
            && ReadsOf(all, g) == ValuesFrom(s'.produced, Senders(all), g) + Unsent(s', g)
  {
    var s', had := Step(s, a), ValuesFrom(s.produced, Senders(acts), g);
    NextAction(acts, a, g);
    StepProduces(s, a);
    StepIsGenuine(s, a, g);
    hide Step, Enabled, Unsent, ValuesFrom, ReadsOf, Senders, ClosedIn;
    if a.Send? && s.closes == 0 {
      var r := s'.produced[|s.produced|];
      assert s'.produced == s.produced + [r];
      ValuesNext(s.produced, Senders(acts), r, a.g, g);
      Reassociate(had, if a.g == g then [r.value] else [], Unsent(s', g));
      assert ReadsOf(acts, g) + [] == ReadsOf(acts, g);
    } else {
      assert Senders(acts) + [] == Senders(acts);
      Reassociate(had, Unsent(s, g), if a.ReadOk? && a.g == g then [a.value] else []);
    }
  }

  // In every run, the readings on the channel are those the devices gave: see Genuine.
  lemma {:induction false} ReadingsAreGenuine(s0: System, acts: seq<Action>)
    requires Init(s0) && Legal(s0, acts)
    ensures Genuine(Run(s0, acts), acts)
    decreases |acts|
  {
    if acts != [] {
      var n := |acts| - 1;
      LastStep(s0, acts);
      hide Step, Enabled;
      ReadingsAreGenuine(s0, acts[..n]);
      NextIsGenuine(Run(s0, acts[..n]), acts[..n], acts[n]);
      assert acts[..n] + [acts[n]] == acts;
    }
  }
}
