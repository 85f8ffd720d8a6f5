// main.go: from the readings channel through the data writer into store-and-forward.

/** Monitor and StoreForward side by side.  Taking a reading from the channel submits it as a
    WriteReading call, and the data writer moves on only when that call has returned. */
module Pipeline {
  import M = Monitor
  import R = Readings
  import S = StoreForward
  import LocalCache

  // Readings of this process are tagged from `base` on; smaller tags belong to other callers and to
  // what an earlier process left on disk.
  datatype Pipe = Pipe(m: M.System, s: S.System, base: nat)

  function Tagged(p: Pipe, i: nat): LocalCache.Reading
    requires i < |p.m.produced|
  {
    Tag(p.m.produced, p.base, i)
  }

  datatype Action = Devices(m: M.Action) | Storage(s: S.Action) | TakeAndSubmit | Returned

  predicate Enabled(p: Pipe, a: Action) {
    match a
    case Devices(b) => !b.Take? && !b.WriteDb? && M.Enabled(p.m, b)
    case Storage(b) => (b.Submit? ==> b.r.tag < p.base) && S.Enabled(p.s, b)
    case TakeAndSubmit =>
      M.Enabled(p.m, M.Take) && p.m.buffer[0] < |p.m.produced| && S.Enabled(p.s, S.Submit(Tagged(p, p.m.buffer[0])))
    case Returned =>
      p.m.writer.Writing? && p.m.writer.i < |p.m.produced| && Answered(p.s.calls, Tagged(p, p.m.writer.i))
  }

  function Step(p: Pipe, a: Action): Pipe
    requires Enabled(p, a)
  {
    match a
    case Devices(b) => p.(m := M.Step(p.m, b))
    case Storage(b) => p.(s := S.Step(p.s, b))
    case TakeAndSubmit => p.(m := M.Step(p.m, M.Take), s := S.Step(p.s, S.Submit(Tagged(p, p.m.buffer[0]))))
    case Returned => p.(m := M.Step(p.m, M.WriteDb))
  }

  predicate Legal(p: Pipe, acts: seq<Action>)
    decreases |acts|
  {
    acts != [] ==> Enabled(p, acts[0]) && Legal(Step(p, acts[0]), acts[1..])
  }

  function Run(p: Pipe, acts: seq<Action>): Pipe
    requires Legal(p, acts)
    decreases |acts|
  {
    if acts == [] then p else Run(Step(p, acts[0]), acts[1..])
  }

  ghost predicate Init(p: Pipe) {
    M.Init(p.m) && S.Init(p.s) && forall r :: r in p.s.calls ==> r.tag < p.base
  }

  function Tag(produced: seq<M.Reading>, base: nat, i: nat): LocalCache.Reading
    requires i < |produced|
  {
    LocalCache.Reading(base + i, produced[i].device, produced[i].value)
  }

  predicate Answered(calls: map<LocalCache.Reading, S.CallPc>, r: LocalCache.Reading) {
    r in calls && (calls[r] == S.Accepted || calls[r] == S.Refused)
  }

  // Exactly the taken readings have been submitted, and those written have their answer.
  ghost predicate Joined(produced: seq<M.Reading>, taken: seq<nat>, written: seq<nat>,
                         calls: map<LocalCache.Reading, S.CallPc>, base: nat) {
    && (forall i :: i in taken ==> i < |produced| && Tag(produced, base, i) in calls)
    && (forall i :: 0 <= i < |produced| && Tag(produced, base, i) in calls ==> i in taken)
    && (forall r :: r in calls ==> r.tag < base + |produced|)
    && (forall i :: i in written ==> i < |produced| && Answered(calls, Tag(produced, base, i)))
  }

  ghost predicate Linked(p: Pipe) {
    Joined(p.m.produced, p.m.taken, p.m.written, p.s.calls, p.base)
  }

  lemma {:induction false} StorageKeepsCalls(s: S.System, a: S.Action, r: LocalCache.Reading)
    requires S.Enabled(s, a)
    ensures r in s.calls ==> r in S.Step(s, a).calls
    ensures r in S.Step(s, a).calls ==> r in s.calls || a == S.Submit(r)
    ensures Answered(s.calls, r) ==> Answered(S.Step(s, a).calls, r)
  {
  }

  lemma {:induction false} CallsMoveOn(
    produced: seq<M.Reading>, taken: seq<nat>, written: seq<nat>, calls: map<LocalCache.Reading, S.CallPc>,
    calls': map<LocalCache.Reading, S.CallPc>, base: nat)
    requires Joined(produced, taken, written, calls, base)
    requires forall r :: r in calls ==> r in calls'
    requires forall r :: r in calls' ==> r in calls || r.tag < base
    requires forall r :: Answered(calls, r) ==> Answered(calls', r)
    ensures Joined(produced, taken, written, calls', base)
  {
  }

  lemma {:induction false} MoreProduced(
    produced: seq<M.Reading>, produced': seq<M.Reading>, taken: seq<nat>, written: seq<nat>,
    calls: map<LocalCache.Reading, S.CallPc>, base: nat)
    requires Joined(produced, taken, written, calls, base) && produced <= produced'
    ensures Joined(produced', taken, written, calls, base)
  {
    forall i | 0 <= i < |produced'|
      ensures if i < |produced| then Tag(produced, base, i) == Tag(produced', base, i)
              else Tag(produced', base, i) !in calls
    {
    }
  }

  lemma {:induction false} OneTaken(
    produced: seq<M.Reading>, taken: seq<nat>, written: seq<nat>, calls: map<LocalCache.Reading, S.CallPc>,
    base: nat, i: nat)
    requires Joined(produced, taken, written, calls, base) && i < |produced| && Tag(produced, base, i) !in calls
    ensures Joined(produced, taken + [i], written, calls[Tag(produced, base, i) := S.Attempting], base)
  {
    var calls' := calls[Tag(produced, base, i) := S.Attempting];
    assert forall j :: j in taken + [i] <==> j in taken || j == i;
    assert forall r :: Answered(calls, r) ==> Answered(calls', r);
  }

  lemma {:induction false} OneWritten(
    produced: seq<M.Reading>, taken: seq<nat>, written: seq<nat>, calls: map<LocalCache.Reading, S.CallPc>,
    base: nat, i: nat)
    requires Joined(produced, taken, written, calls, base) && i < |produced| && Answered(calls, Tag(produced, base, i))
    ensures Joined(produced, taken, written + [i], calls, base)
  {
  }

  lemma {:induction false} DevicesKeepProduced(m: M.System, a: M.Action)
    requires M.Enabled(m, a)
    ensures m.produced <= M.Step(m, a).produced
    ensures !a.Take? && !a.WriteDb? ==> M.Step(m, a).taken == m.taken && M.Step(m, a).written == m.written
  {
  }

  lemma {:induction false} StepKeepsLinked(p: Pipe, a: Action)
    requires Linked(p) && Enabled(p, a)
    ensures Linked(Step(p, a))
  {
    var p' := Step(p, a);
    match a
    case Devices(b) =>
      DevicesKeepProduced(p.m, b);
      MoreProduced(p.m.produced, p'.m.produced, p.m.taken, p.m.written, p.s.calls, p.base);
    case Storage(b) =>
      forall r: LocalCache.Reading { StorageKeepsCalls(p.s, b, r); }
      CallsMoveOn(p.m.produced, p.m.taken, p.m.written, p.s.calls, p'.s.calls, p.base);
    case TakeAndSubmit =>
      OneTaken(p.m.produced, p.m.taken, p.m.written, p.s.calls, p.base, p.m.buffer[0]);
    case Returned =>
      OneWritten(p.m.produced, p.m.taken, p.m.written, p.s.calls, p.base, p.m.writer.i);
  }

  lemma {:induction false} StepKeepsParts(p: Pipe, a: Action)
    requires R.Flow(p.m) && S.Inv(p.s) && Enabled(p, a)
    ensures R.Flow(Step(p, a).m) && S.Inv(Step(p, a).s)
  {
    match a
    case Devices(b) => R.StepKeepsFlow(p.m, b);
    case Storage(b) => S.StepKeepsInv(p.s, b);
    case TakeAndSubmit =>
      R.StepKeepsFlow(p.m, M.Take);
      S.StepKeepsInv(p.s, S.Submit(Tagged(p, p.m.buffer[0])));
    case Returned => R.StepKeepsFlow(p.m, M.WriteDb);
  }

  lemma {:induction false} RunKeepsAll(p: Pipe, acts: seq<Action>)
    requires R.Flow(p.m) && S.Inv(p.s) && Linked(p) && Legal(p, acts)
    ensures R.Flow(Run(p, acts).m) && S.Inv(Run(p, acts).s) && Linked(Run(p, acts))
    decreases |acts|
  {
    if acts != [] {
      StepKeepsLinked(p, acts[0]);
      StepKeepsParts(p, acts[0]);
      RunKeepsAll(Step(p, acts[0]), acts[1..]);
    }
  }

  // The head of the buffer has never been submitted, so the data writer is never stuck on it.
  lemma {:induction false} HeadIsFresh(p0: Pipe, acts: seq<Action>)
    requires Init(p0) && Legal(p0, acts) && M.Enabled(Run(p0, acts).m, M.Take)
    ensures Enabled(Run(p0, acts), TakeAndSubmit)
  {
    hide S.Inv, S.Init, R.Flow, Joined;
    S.InitInv(p0.s);
    StartsLinked(p0);
    RunKeepsAll(p0, acts);
    FreshHead(Run(p0, acts));
  }

  lemma {:induction false} StartsLinked(p: Pipe)
    requires Init(p)
    ensures R.Flow(p.m) && Linked(p)
  {
    hide S.Inv, S.Init;
  }

  lemma {:induction false} FreshHead(p: Pipe)
    requires Linked(p) && R.Flow(p.m) && M.Enabled(p.m, M.Take)
    ensures Enabled(p, TakeAndSubmit)
  {
    HeadNotTaken(p.m);
  }

  lemma {:induction false} HeadNotTaken(m: M.System)
    requires R.Flow(m) && m.buffer != []
    ensures m.buffer[0] < |m.produced| && m.buffer[0] !in m.taken
  {
    var order := m.taken + m.buffer;
    assert order[|m.taken|] == m.buffer[0];
    forall j | 0 <= j < |m.taken| ensures m.taken[j] != m.buffer[0] {
      assert order[j] < order[|m.taken|];
    }
  }

  // Where the i-th produced reading is.
  datatype Place = Lost | Buffered | InCall | Refused | OnDisk | Stored

  function PlaceOf(p: Pipe, i: nat): Place
    requires i < |p.m.produced|
  {
    var r := Tagged(p, i);
    if i in p.m.dropped then Lost
    else if i in p.m.buffer then Buffered
    else if S.Owed(p.s, r) == 1 then (if S.OnDisk(p.s, r) > 0 then OnDisk else Stored)
    else if S.At(p.s, r, S.Refused) then Refused
    else InCall
  }

  // Storage and disk hold the i-th reading exactly as often as its place says.
  predicate ExactAt(p: Pipe, i: nat)
    requires i < |p.m.produced|
  {
    var r := Tagged(p, i);
    var copies := p.s.failedDeletes[r] + S.InHand(p.s, r);
    match PlaceOf(p, i)
    case Lost => r !in p.s.calls && S.Stored(p.s, r) == 0
    case Buffered => r !in p.s.calls && S.Stored(p.s, r) == 0 && i in p.m.buffer
    case InCall => p.m.writer == M.Writing(i) && S.Stored(p.s, r) == 0 && S.OnDisk(p.s, r) == 0
    case Refused => i in p.m.taken && S.Stored(p.s, r) == 0 && S.OnDisk(p.s, r) == 0
    case OnDisk => i in p.m.taken && S.OnDisk(p.s, r) == 1 && S.Stored(p.s, r) == copies
    case Stored => i in p.m.taken && S.OnDisk(p.s, r) == 0 && S.Stored(p.s, r) == 1 + copies
  }

  // End to end, over every interleaving of device goroutines, data writer, other callers and
  // replay: a produced reading was dropped by a full channel, waits in the channel, is in the
  // data writer's unreturned call, was refused with an error, is in one cache file, or has been
  // stored; and it is nowhere else, but for the copies that failed deletes explain.  (A refused one
  // whose file was written all the same counts as in its file or stored.)
  lemma {:induction false} EveryReadingIsSomewhere(p0: Pipe, acts: seq<Action>, i: nat)
    requires Init(p0) && Legal(p0, acts) && i < |Run(p0, acts).m.produced|
    ensures ExactAt(Run(p0, acts), i)
  {
    hide S.Inv, S.Init, R.Flow, Joined, ExactAt, InStorage, OnePlace;
    S.InitInv(p0.s);
    StartsLinked(p0);
    RunKeepsAll(p0, acts);
    var p := Run(p0, acts);
    NotInTwoPlaces(p.m, i);
    WhereInStorage(p.s, Tagged(p, i));
    PlaceIsExact(p, i);
  }

  ghost predicate InStorage(s: S.System, r: LocalCache.Reading) {
    var copies := s.failedDeletes[r] + S.InHand(s, r);
    && (r in s.unreported ==> S.At(s, r, S.Refused))
    && if S.Owed(s, r) == 1
    then (S.OnDisk(s, r) == 1 && S.Stored(s, r) == copies) || (S.OnDisk(s, r) == 0 && S.Stored(s, r) == 1 + copies)
    else S.Stored(s, r) == 0 && S.OnDisk(s, r) == 0
  }

  predicate OnePlace(m: M.System, i: nat) {
    if i in m.dropped || i in m.buffer then i !in m.taken
    else i in m.taken && (i in m.written || m.writer == M.Writing(i))
  }

  lemma {:induction false} PlaceIsExact(p: Pipe, i: nat)
    requires Linked(p) && i < |p.m.produced| && OnePlace(p.m, i) && InStorage(p.s, Tagged(p, i))
    ensures ExactAt(p, i)
  {
  }

  lemma {:induction false} NotInTwoPlaces(m: M.System, i: nat)
    requires R.Flow(m) && i < |m.produced|
    ensures OnePlace(m, i)
  {
    var order := m.taken + m.buffer;
    assert i in order <==> i in m.taken || i in m.buffer;
    forall j | 0 <= j < |m.taken| ensures m.taken[j] !in m.dropped && m.taken[j] !in m.buffer {
      assert order[j] == m.taken[j];
      forall k | 0 <= k < |m.buffer| ensures m.buffer[k] != m.taken[j] {
        assert order[j] < order[|m.taken| + k];
      }
    }
  }

  lemma {:induction false} WhereInStorage(s: S.System, r: LocalCache.Reading)
    requires S.Inv(s)
    ensures InStorage(s, r)
  {
    assert S.Conserved(s, r) && S.Placed(s, r);
  }

  // ---------- What a reading holds, from device to storage ----------

  // The reading is the one of this process that its tag names, contents and all.
  predicate Carries(produced: seq<M.Reading>, base: nat, r: LocalCache.Reading) {
    r.tag >= base ==>
      && r.tag - base < |produced|
      && r.deviceID == produced[r.tag - base].device
      && r.payload == produced[r.tag - base].value
  }

  ghost predicate AllCarry(p: Pipe) {
    forall r :: r in p.s.calls ==> Carries(p.m.produced, p.base, r)
  }

  lemma {:induction false} StepKeepsCarrying(p: Pipe, a: Action)
    requires AllCarry(p) && Enabled(p, a)
    ensures AllCarry(Step(p, a)) && Step(p, a).base == p.base
  {
    var p' := Step(p, a);
    forall r | r in p'.s.calls
      ensures Carries(p'.m.produced, p.base, r)
    {
      match a
      case Devices(b) => DevicesKeepProduced(p.m, b);
      case Storage(b) => StorageKeepsCalls(p.s, b, r);
      case TakeAndSubmit =>
        DevicesKeepProduced(p.m, M.Take);
        StorageKeepsCalls(p.s, S.Submit(Tagged(p, p.m.buffer[0])), r);
      case Returned => DevicesKeepProduced(p.m, M.WriteDb);
    }
  }

  lemma {:induction false} RunKeepsCarrying(p: Pipe, acts: seq<Action>)
    requires AllCarry(p) && Legal(p, acts)
    ensures AllCarry(Run(p, acts)) && Run(p, acts).base == p.base
    decreases |acts|
  {
    if acts != [] {
      StepKeepsCarrying(p, acts[0]);
      RunKeepsCarrying(Step(p, acts[0]), acts[1..]);
    }
  }

  // The reading has been submitted, stored, or put in a cache file.
  ghost predicate Reached(s: S.System, r: LocalCache.Reading) {
    || r in s.calls || r in s.log
    || exists name, e :: name in s.cache.files && s.cache.files[name].content == LocalCache.Entry(e) && e.reading == r
  }

  lemma {:induction false} ReachedIsSubmitted(s: S.System, r: LocalCache.Reading)
    requires S.Inv(s) && Reached(s, r)
    ensures r in s.calls
  {
    assert S.Conserved(s, r) && S.Placed(s, r);
    if name, e :| name in s.cache.files && s.cache.files[name].content == LocalCache.Entry(e) && e.reading == r {
      assert name in S.Holding(s.cache.files, r);
    }
  }

  // Over every joint run: whatever of this process has reached a call, storage or a cache file holds
  // the device and the value of the reading that was produced under its tag.
  lemma {:induction false} ContentsArrive(p0: Pipe, acts: seq<Action>, r: LocalCache.Reading)
    requires Init(p0) && Legal(p0, acts) && Reached(Run(p0, acts).s, r) && r.tag >= p0.base
    ensures var produced, i := Run(p0, acts).m.produced, r.tag - p0.base;
            i < |produced| && r.deviceID == produced[i].device && r.payload == produced[i].value
  {
    hide S.Inv, S.Init, R.Flow, Joined;
    S.InitInv(p0.s);
    StartsLinked(p0);
    RunKeepsAll(p0, acts);
    RunKeepsCarrying(p0, acts);
    ReachedIsSubmitted(Run(p0, acts).s, r);
  }

  // The monitor's part of a joint run.
  function DevicePart(acts: seq<Action>): seq<M.Action> {
    if acts == [] then [] else DeviceStep(acts[0]) + DevicePart(acts[1..])
  }

  function DeviceStep(a: Action): seq<M.Action> {
    match a
    case Devices(b) => [b]
    case TakeAndSubmit => [M.Take]
    case Returned => [M.WriteDb]
    case Storage(_) => []
  }

  lemma {:induction false} DevicePartRuns(p: Pipe, acts: seq<Action>)
    requires Legal(p, acts)
    ensures M.Legal(p.m, DevicePart(acts)) && M.Run(p.m, DevicePart(acts)) == Run(p, acts).m
    decreases |acts|
  {
    if acts != [] {
      var p', rest := Step(p, acts[0]), acts[1..];
      DevicePartRuns(p', rest);
      if DeviceStep(acts[0]) == [] {
        assert DevicePart(acts) == DevicePart(rest);
      } else {
        assert DevicePart(acts)[0] == DeviceStep(acts[0])[0] && DevicePart(acts)[1..] == DevicePart(rest);
      }
    }
  }

  // From device to storage: what storage or a cache file holds for a reading of this process is what
  // some goroutine of that device read.
  lemma {:induction false} StoredAsRead(p0: Pipe, acts: seq<Action>, r: LocalCache.Reading) returns (g: nat)
    requires Init(p0) && Legal(p0, acts) && Reached(Run(p0, acts).s, r) && r.tag >= p0.base
    ensures var m := Run(p0, acts).m;
            g < |m.gs| && m.gs[g].device == r.deviceID && r.payload in R.ReadsOf(DevicePart(acts), g)
  {
    ContentsArrive(p0, acts, r);
    DevicePartRuns(p0, acts);
    var m, part, i := Run(p0, acts).m, DevicePart(acts), r.tag - p0.base;
    R.ReadingsAreGenuine(p0.m, part);
    g := R.Senders(part)[i];
    ValueIsFrom(m.produced, R.Senders(part), i);
  }

  lemma {:induction false} ValueIsFrom(produced: seq<M.Reading>, senders: seq<nat>, i: nat)
    requires i < |produced| == |senders|
    ensures produced[i].value in R.ValuesFrom(produced, senders, senders[i])
  {
    var n := |produced| - 1;
    if i < n { ValueIsFrom(produced[..n], senders[..n], i); }
  }
}
