// storage/cache.go: CachingStorage under concurrency.

/** Any number of WriteReading calls interleave with the one replay goroutine.  Every stretch
    that the code runs under a single lock, or as a single call into storage or the file
    system, is one atomic step; an action carries what the environment decided. */
module StoreForward {
  import opened Basics
  import opened CacheNames
  import opened LocalCache
  import Breaker

  // Where a WriteReading call stands; Accepted is its nil return, Refused its error.
  datatype CallPc = Attempting | Flagging | Caching | Accepted | Refused

  // Where the replay goroutine stands.  The head of `todo` is the entry being handled.
  datatype Replayer =
    Waiting | Listing | Writing(todo: seq<CachedReading>) | Deleting(todo: seq<CachedReading>) | Clearing

  datatype Edge = Raised | Cleared

  // `log` is every reading handed to storage with a nil error, in order; `failedDeletes` counts
  // the replayed readings whose file could not be deleted; `unreported` holds the refused readings
  // whose file was written in full all the same; `edges` are the changes of `enabled`.
  datatype System = System(
    cfg: Breaker.Config, breaker: Breaker.State,
    calls: map<Reading, CallPc>, cache: Cache,
    enabled: bool, edges: seq<Edge>, replayer: Replayer,
    log: seq<Reading>, failedDeletes: multiset<Reading>, unreported: set<Reading>)

  datatype Action =
    | Submit(r: Reading)
    | Attempt(r: Reading, call: Breaker.Call)
    | RaiseFlag(r: Reading)
    | CacheWrite(r: Reading, nanos: int, cachedAt: int, size: nat, disk: DiskWrite)
    | Tick(healthy: bool)
    | List(unreadable: set<string>, names: seq<string>, out: seq<CachedReading>)
    | ListError
    | ReplayWrite(ok: bool)
    | ReplayDelete(removable: bool)
    | ReplayEnd
    | ClearFlag

  predicate At(s: System, r: Reading, pc: CallPc) {
    r in s.calls && s.calls[r] == pc
  }

  // Every reading is submitted once: its tag names the call.
  predicate Possible(s: System, a: Action) {
    match a
    case Submit(r) => r !in s.calls
    case Attempt(r, _) => At(s, r, Attempting)
    case RaiseFlag(r) => At(s, r, Flagging)
    case CacheWrite(r, _, _, _, _) => At(s, r, Caching)
    case Tick(_) => s.replayer == Waiting
    case List(unreadable, names, out) => s.replayer == Listing && Listed(s.cache.files, unreadable, names, out)
    case ListError => s.replayer == Listing
    case ReplayWrite(_) => s.replayer.Writing? && s.replayer.todo != []
    case ReplayDelete(_) => s.replayer.Deleting? && s.replayer.todo != []
    case ReplayEnd => s.replayer == Writing([])
    case ClearFlag => s.replayer == Clearing
  }

  function NameOf(a: Action): string
    requires a.CacheWrite?
  {
    FileName(AttemptID(a.nanos, a.r.deviceID))
  }

  // A cache write that reaches the disk under the name of an entry.
  predicate Clobbers(s: System, a: Action) {
    && a.CacheWrite? && s.cache.currentSize < s.cache.maxSize && a.disk != Untouched
    && NameOf(a) in s.cache.files && s.cache.files[NameOf(a)].content.Entry?
  }

  predicate Enabled(s: System, a: Action) { Possible(s, a) && !Clobbers(s, a) }

  function Entered(r: Reading, nanos: int, cachedAt: int): CachedReading {
    CachedReading(r, cachedAt, AttemptID(nanos, r.deviceID))
  }

  function Step(s: System, a: Action): System
    requires Possible(s, a)
  {
    match a
    case Submit(r) => s.(calls := s.calls[r := Attempting])
    case Attempt(r, call) =>
      var (b, reply) := Breaker.Step(s.cfg, s.breaker, call);
      if reply == Breaker.Passed
      then s.(breaker := b, calls := s.calls[r := Accepted], log := s.log + [r])
      else s.(breaker := b, calls := s.calls[r := Flagging])
    case RaiseFlag(r) =>
      if s.enabled then s.(calls := s.calls[r := Caching])
      else s.(calls := s.calls[r := Caching], enabled := true, edges := s.edges + [Raised])
    case CacheWrite(r, nanos, cachedAt, size, disk) =>
      var (c, ok) := AfterWrite(s.cache, Entered(r, nanos, cachedAt), size, disk);
      s.(cache := c, calls := s.calls[r := if ok then Accepted else Refused],
         unreported := s.unreported + (if s.cache.currentSize < s.cache.maxSize && disk == Unreported then {r} else {}))
    case Tick(healthy) => s.(replayer := if s.enabled && healthy then Listing else Waiting)
    case List(_, _, out) => s.(replayer := Writing(out))
    case ListError => s.(replayer := Waiting)
    case ReplayWrite(ok) =>
      var todo := s.replayer.todo;
      if ok then s.(log := s.log + [todo[0].reading], replayer := Deleting(todo))
      else s.(replayer := Writing(todo[1..]))
    case ReplayDelete(removable) =>
      var todo := s.replayer.todo;
      var (c, ok) := AfterDelete(s.cache, todo[0].attemptID, removable);
      s.(cache := c, replayer := Writing(todo[1..]),
         failedDeletes := s.failedDeletes + (if ok then multiset{} else multiset{todo[0].reading}))
    case ReplayEnd => s.(replayer := Clearing)
    case ClearFlag =>
      s.(replayer := Waiting, enabled := false, edges := if s.enabled then s.edges + [Cleared] else s.edges)
  }

  predicate Legal(s: System, acts: seq<Action>)
    decreases |acts|
  {
    acts != [] ==> Enabled(s, acts[0]) && Legal(Step(s, acts[0]), acts[1..])
  }

  function Run(s: System, acts: seq<Action>): System
    requires Legal(s, acts)
    decreases |acts|
  {
    if acts == [] then s else Run(Step(s, acts[0]), acts[1..])
  }

  // ---------- What holds in every reachable state ----------

  function Holding(files: map<string, File>, r: Reading): set<string> {
    set name | name in files && files[name].content.Entry? && files[name].content.cached.reading == r
  }

  function OnDisk(s: System, r: Reading): nat { |Holding(s.cache.files, r)| }

  function Stored(s: System, r: Reading): nat { multiset(s.log)[r] }

  // 1 while the replayer is between its successful write of r and its delete.
  function InHand(s: System, r: Reading): nat {
    if s.replayer.Deleting? && s.replayer.todo != [] && s.replayer.todo[0].reading == r then 1 else 0
  }

  // 1 for a reading that storage is to get: it was accepted, or its file was written although the
  // call was told otherwise.
  function Owed(s: System, r: Reading): nat {
    if At(s, r, Accepted) || r in s.unreported then 1 else 0
  }

  predicate Conserved(s: System, r: Reading) {
    Stored(s, r) + OnDisk(s, r) == Owed(s, r) + s.failedDeletes[r] + InHand(s, r)
  }

  // A reading not owed is nowhere, and no reading is ever in two files.
  predicate Placed(s: System, r: Reading) {
    && OnDisk(s, r) <= 1
    && (Owed(s, r) == 0 ==> Stored(s, r) == 0 && OnDisk(s, r) == 0)
    && (r in s.unreported ==> At(s, r, Refused))
  }

  predicate Holds(files: map<string, File>, e: CachedReading) {
    var name := FileName(e.attemptID);
    name in files && files[name].content == Entry(e)
  }

  // Entries are filed under their own attempt identifier.
  predicate Filed(files: map<string, File>) {
    forall name :: name in files && files[name].content.Entry? ==>
      name == FileName(files[name].content.cached.attemptID)
  }

  function Pending(p: Replayer): seq<CachedReading> {
    match p case Writing(todo) => todo case Deleting(todo) => todo case _ => []
  }

  // What the replayer still has to do is on disk, each entry once.
  predicate Pinned(files: map<string, File>, todo: seq<CachedReading>) {
    && (forall i :: 0 <= i < |todo| ==> Holds(files, todo[i]))
    && (forall i, j :: 0 <= i < j < |todo| ==> todo[i].attemptID != todo[j].attemptID)
  }

  predicate Alternating(edges: seq<Edge>) {
    forall i :: 0 <= i < |edges| ==> edges[i] == if i % 2 == 0 then Raised else Cleared
  }

  // The flag's history alternates and ends at the flag's value; a busy replayer finds it raised.
  predicate Flagged(s: System) {
    && Alternating(s.edges)
    && s.enabled == (|s.edges| % 2 == 1)
    && (s.replayer != Waiting ==> s.enabled)
  }

  ghost predicate Inv(s: System) {
    && Filed(s.cache.files)
    && Pinned(s.cache.files, Pending(s.replayer))
    && (s.replayer.Deleting? ==> s.replayer.todo != [])
    && Flagged(s)
    && (forall r :: Conserved(s, r) && Placed(s, r))
  }

  // A process starts with whatever an earlier one left: each leftover entry counts as a call
  // accepted before the start.
  ghost predicate Init(s: System) {
    && s.breaker == Breaker.NEW && !s.enabled && s.edges == [] && s.replayer == Waiting
    && s.log == [] && s.failedDeletes == multiset{} && s.unreported == {}
    && Filed(s.cache.files)
    && (forall r :: r in s.calls ==> s.calls[r] == Accepted)
    && (forall r :: OnDisk(s, r) == if r in s.calls then 1 else 0)
  }

  lemma {:induction false} InitInv(s: System)
    requires Init(s)
    ensures Inv(s)
  {
  }

  lemma {:induction false} HoldingPut(files: map<string, File>, name: string, f: File, r: Reading)
    requires name in files ==> !files[name].content.Entry?
    ensures |Holding(files[name := f], r)|
            == |Holding(files, r)| + (if f.content.Entry? && f.content.cached.reading == r then 1 else 0)
  {
    assert Holding(files[name := f], r)
           == Holding(files, r) + (if f.content.Entry? && f.content.cached.reading == r then {name} else {});
  }

  lemma {:induction false} HoldingTake(files: map<string, File>, name: string, r: Reading)
    ensures Holding(files - {name}, r) == Holding(files, r) - {name}
  {
  }

  // A listing taken while entries are filed under their identifiers can be replayed safely.
  lemma {:induction false} ListedIsPinned(files: map<string, File>, unreadable: set<string>,
                                          names: seq<string>, out: seq<CachedReading>)
    requires Filed(files) && Listed(files, unreadable, names, out)
    ensures Pinned(files, out)
  {
    forall i | 0 <= i < |out|
      ensures Holds(files, out[i]) && names[i] == FileName(out[i].attemptID)
    {
      assert files[names[i]].content == Entry(out[i]);
    }
  }

  // A file under a name that no entry has leaves every entry in its place.
  lemma {:induction false} NewFile(files: map<string, File>, todo: seq<CachedReading>, e: CachedReading, f: File)
    requires Filed(files) && Pinned(files, todo)
    requires var name := FileName(e.attemptID); name in files ==> !files[name].content.Entry?
    requires f.content == Entry(e) || f.content == Garbage
    ensures Filed(files[FileName(e.attemptID) := f]) && Pinned(files[FileName(e.attemptID) := f], todo)
  {
  }

  // The file that a cache write leaves if it reaches the disk.
  function FileOf(a: Action): File
    requires a.CacheWrite?
  {
    if a.disk.Torn? then File(Garbage, a.disk.size) else File(Entry(Entered(a.r, a.nanos, a.cachedAt)), a.size)
  }

  lemma {:induction false} WriteCounts(s: System, a: Action, r: Reading)
    requires a.CacheWrite? && Enabled(s, a) && Conserved(s, r) && Placed(s, r) && Placed(s, a.r)
    ensures Conserved(Step(s, a), r) && Placed(Step(s, a), r)
  {
    var files, files' := s.cache.files, Step(s, a).cache.files;
    if s.cache.currentSize < s.cache.maxSize && a.disk != Untouched {
      HoldingPut(files, NameOf(a), FileOf(a), r);
      assert files' == files[NameOf(a) := FileOf(a)];
    } else {
      assert files' == files;
    }
    assert |Holding(files', r)| == |Holding(files, r)| + (if r == a.r then Owed(Step(s, a), r) else 0);
  }

  lemma {:induction false} WriteKeepsInv(s: System, a: Action)
    requires Inv(s) && a.CacheWrite? && Enabled(s, a)
    ensures Inv(Step(s, a))
  {
    var s', e := Step(s, a), Entered(a.r, a.nanos, a.cachedAt);
    if s.cache.currentSize < s.cache.maxSize && a.disk != Untouched {
      NewFile(s.cache.files, Pending(s.replayer), e, FileOf(a));
      assert s'.cache.files == s.cache.files[NameOf(a) := FileOf(a)];
    }
    assert Filed(s'.cache.files) && Pinned(s'.cache.files, Pending(s'.replayer));
    forall r
      ensures Conserved(s', r) && Placed(s', r)
    {
      assert Conserved(s, r) && Placed(s, r);
      assert Placed(s, a.r);
      WriteCounts(s, a, r);
    }
  }

  lemma {:induction false} DeleteKeepsInv(s: System, a: Action)
    requires Inv(s) && a.ReplayDelete? && Enabled(s, a)
    ensures Inv(Step(s, a))
  {
    var s', todo, files := Step(s, a), s.replayer.todo, s.cache.files;
    var name := FileName(todo[0].attemptID);
    assert Holds(files, todo[0]);
    forall i | 1 <= i < |todo|
      ensures FileName(todo[i].attemptID) != name
    {
      FileNameInjective(todo[i].attemptID, todo[0].attemptID);
    }
    forall r
      ensures Conserved(s', r) && Placed(s', r)
    {
      assert Conserved(s, r) && Placed(s, r);
      HoldingTake(files, name, r);
      assert name in Holding(files, r) <==> r == todo[0].reading;
    }
  }

  lemma {:induction false} CallCounts(s: System, a: Action, r: Reading)
    requires Enabled(s, a) && (a.Submit? || a.Attempt? || a.RaiseFlag?)
    requires Conserved(s, r) && Placed(s, r)
    ensures Conserved(Step(s, a), r) && Placed(Step(s, a), r)
  {
    hide Breaker.Step;
    var s' := Step(s, a);
    assert OnDisk(s', r) == OnDisk(s, r) && InHand(s', r) == InHand(s, r);
    assert Stored(s', r) == Stored(s, r) + (if s'.log != s.log && r == a.r then 1 else 0);
    hide OnDisk, InHand, Stored;
  }

  lemma {:induction false} CallKeepsInv(s: System, a: Action)
    requires Inv(s) && Enabled(s, a) && (a.Submit? || a.Attempt? || a.RaiseFlag?)
    ensures Inv(Step(s, a))
  {
    var s' := Step(s, a);
    assert s'.cache == s.cache && s'.replayer == s.replayer;
    assert Flagged(s');
    forall r
      ensures Conserved(s', r) && Placed(s', r)
    {
      assert Conserved(s, r) && Placed(s, r);
      CallCounts(s, a, r);
    }
  }

  lemma {:induction false} ReplayKeepsInv(s: System, a: Action)
    requires Inv(s) && Enabled(s, a)
    requires !(a.Submit? || a.Attempt? || a.RaiseFlag? || a.CacheWrite? || a.ReplayDelete?)
    ensures Inv(Step(s, a))
  {
    hide Breaker.Step;
    var s' := Step(s, a);
    if a.List? { ListedIsPinned(s.cache.files, a.unreadable, a.names, a.out); }
    forall r
      ensures Conserved(s', r) && Placed(s', r)
    {
      assert Conserved(s, r) && Placed(s, r);
      ReplayCounts(s, a, r);
    }
  }

  lemma {:induction false} ReplayCounts(s: System, a: Action, r: Reading)
    requires Pinned(s.cache.files, Pending(s.replayer)) && Enabled(s, a)
    requires !(a.Submit? || a.Attempt? || a.RaiseFlag? || a.CacheWrite? || a.ReplayDelete?)
    requires Conserved(s, r) && Placed(s, r)
    ensures Conserved(Step(s, a), r) && Placed(Step(s, a), r)
  {
    hide Breaker.Step;
    if a.ReplayWrite? {
      var head := s.replayer.todo[0];
      assert Holds(s.cache.files, head);
      assert FileName(head.attemptID) in Holding(s.cache.files, head.reading);
    }
  }

  lemma {:induction false} StepKeepsInv(s: System, a: Action)
    requires Inv(s) && Enabled(s, a)
    ensures Inv(Step(s, a))
  {
    match a
    case Submit(_) => CallKeepsInv(s, a);
    case Attempt(_, _) => CallKeepsInv(s, a);
    case RaiseFlag(_) => CallKeepsInv(s, a);
    case CacheWrite(_, _, _, _, _) => WriteKeepsInv(s, a);
    case ReplayDelete(_) => DeleteKeepsInv(s, a);
    case _ => ReplayKeepsInv(s, a);
  }

  lemma {:induction false} RunKeepsInv(s: System, acts: seq<Action>)
    requires Inv(s) && Legal(s, acts)
    ensures Inv(Run(s, acts))
    decreases |acts|
  {
    if acts != [] {
      StepKeepsInv(s, acts[0]);
      RunKeepsInv(Step(s, acts[0]), acts[1..]);
    }
  }

  // ---------- Theorems over every run ----------

  // No accepted reading disappears: it is on disk once, or it was stored.  Storage sees it again
  // only after a failed delete, or while its delete is still to come.  A refused reading is
  // nowhere, unless its file was written in full and an error reported; then it goes the same way.
  lemma {:induction false} NothingLost(s0: System, acts: seq<Action>, r: Reading)
    requires Init(s0) && Legal(s0, acts)
    ensures var s := Run(s0, acts);
            && Conserved(s, r)
            && (if At(s, r, Accepted) || (At(s, r, Refused) && r in s.unreported)
                then if OnDisk(s, r) == 0 then Stored(s, r) == 1 + s.failedDeletes[r]
                     else OnDisk(s, r) == 1 && Stored(s, r) == s.failedDeletes[r] + InHand(s, r)
                else Stored(s, r) == OnDisk(s, r) == s.failedDeletes[r] == 0)
  {
    InitInv(s0);
    RunKeepsInv(s0, acts);
    var s := Run(s0, acts);
    assert Conserved(s, r) && Placed(s, r);
    if InHand(s, r) == 1 {
      assert Holds(s.cache.files, s.replayer.todo[0]);
      assert FileName(s.replayer.todo[0].attemptID) in Holding(s.cache.files, r);
    }
  }

  // Failure and recovery edges strictly alternate, the flag is up exactly after an odd number of
  // them, and the replayer's unconditional clear always finds it up.
  lemma {:induction false} EdgesAlternate(s0: System, acts: seq<Action>)
    requires Init(s0) && Legal(s0, acts)
    ensures var s := Run(s0, acts);
            && (forall i :: 0 <= i < |s.edges| ==> s.edges[i] == if i % 2 == 0 then Raised else Cleared)
            && s.enabled == (|s.edges| % 2 == 1)
            && (Enabled(s, ClearFlag) ==> s.enabled && Step(s, ClearFlag).edges == s.edges + [Cleared])
  {
    InitInv(s0);
    RunKeepsInv(s0, acts);
  }

  // Only a write that misreports itself makes a refused reading owed.
  lemma {:induction false} UnreportedOnly(s: System, acts: seq<Action>, r: Reading)
    requires Legal(s, acts) && r in Run(s, acts).unreported
    ensures || r in s.unreported
            || exists i :: 0 <= i < |acts| && acts[i].CacheWrite? && acts[i].r == r && acts[i].disk == Unreported
    decreases |acts|
  {
    if acts != [] {
      UnreportedOnly(Step(s, acts[0]), acts[1..], r);
      assert forall i :: 0 <= i < |acts| - 1 ==> acts[1..][i] == acts[i + 1];
    }
  }

  // ---------- What has to come first ----------

  lemma {:induction false} LeavesWaiting(s: System, a: Action)
    requires Possible(s, a) && s.replayer == Waiting && Step(s, a).replayer != Waiting
    ensures a == Tick(true) && s.enabled
  {
  }

  // Nothing is replayed before a tick that finds storage healthy and the flag up.
  lemma {:induction false} ReplayNeedsHealth(s: System, acts: seq<Action>, k: nat)
    requires s.replayer == Waiting && Legal(s, acts) && k < |acts| && acts[k].ReplayWrite?
    ensures exists j: nat :: j < k && HealthyTick(s, acts, j)
    decreases k
  {
    var a, s1 := acts[0], Step(s, acts[0]);
    if k > 0 {
      if s1.replayer == Waiting {
        ReplayNeedsHealth(s1, acts[1..], k - 1);
        var j: nat :| j < k - 1 && HealthyTick(s1, acts[1..], j);
        assert acts[..j + 1][1..] == acts[1..][..j];
        assert HealthyTick(s, acts, j + 1);
      } else {
        LeavesWaiting(s, a);
        assert acts[..0] == [];
        assert HealthyTick(s, acts, 0);
      }
    }
  }

  predicate HealthyTick(s: System, acts: seq<Action>, j: nat) {
    j < |acts| && acts[j] == Tick(true) && Legal(s, acts[..j]) && Run(s, acts[..j]).enabled
  }

  // A reading is cached only after its call has tried storage and then seen to the flag.
  lemma {:induction false} CachedAfterFlag(s: System, acts: seq<Action>, k: nat)
    requires Legal(s, acts) && k < |acts| && acts[k].CacheWrite? && acts[k].r !in s.calls
    ensures exists i, j :: 0 <= i < j < k && acts[i].Attempt? && acts[i].r == acts[k].r
                           && acts[j] == RaiseFlag(acts[k].r)
    decreases |acts|
  {
    var r := acts[k].r;
    var j := FlaggedBefore(s, acts, k);
    var i := AttemptedBefore(s, acts, j);
    assert acts[i].Attempt? && acts[i].r == r && acts[j] == RaiseFlag(r);
  }

  lemma {:induction false} FlaggedBefore(s: System, acts: seq<Action>, k: nat) returns (j: nat)
    requires Legal(s, acts) && k < |acts| && acts[k].CacheWrite? && !At(s, acts[k].r, Caching)
    ensures j < k && acts[j] == RaiseFlag(acts[k].r)
    decreases k
  {
    var s1 := Step(s, acts[0]);
    if At(s1, acts[k].r, Caching) {
      j := 0;
    } else {
      j := FlaggedBefore(s1, acts[1..], k - 1);
      j := j + 1;
    }
  }

  lemma {:induction false} AttemptedBefore(s: System, acts: seq<Action>, j: nat) returns (i: nat)
    requires Legal(s, acts) && j < |acts| && acts[j].RaiseFlag? && !At(s, acts[j].r, Flagging)
    ensures i < j && acts[i].Attempt? && acts[i].r == acts[j].r
    decreases j
  {
    var s1 := Step(s, acts[0]);
    if At(s1, acts[j].r, Flagging) {
      i := 0;
    } else {
      i := AttemptedBefore(s1, acts[1..], j - 1);
      i := i + 1;
    }
  }

  // ---------- What reusing a name does ----------

  predicate Possibly(s: System, acts: seq<Action>)
    decreases |acts|
  {
    acts != [] ==> Possible(s, acts[0]) && Possibly(Step(s, acts[0]), acts[1..])
  }

  // Conservation survives a step exactly if the step does not write over an entry.
  lemma {:induction false} ConservedIff(s: System, a: Action)
    requires Inv(s) && Possible(s, a)
    ensures (forall r :: Conserved(Step(s, a), r)) <==> !Clobbers(s, a)
  {
    if Clobbers(s, a) {
      var r := ClobberLoses(s, a);
    } else {
      StepKeepsInv(s, a);
    }
  }

  // The reading whose entry is written over is owed, and neither stored nor on disk any more.
  lemma {:induction false} ClobberLoses(s: System, a: Action) returns (r: Reading)
    requires Inv(s) && Possible(s, a) && Clobbers(s, a)
    ensures !Conserved(Step(s, a), r)
  {
    var files, name := s.cache.files, NameOf(a);
    r := files[name].content.cached.reading;
    assert Conserved(s, r) && Placed(s, r) && Placed(s, a.r);
    assert name in Holding(files, r);
    OnlyElement(Holding(files, r), name);
    assert r != a.r;
    var s' := Step(s, a);
    assert s'.cache.files == files[name := FileOf(a)];
    HoldingOver(files, name, FileOf(a), r);
    assert Owed(s', r) == Owed(s, r) && InHand(s', r) == InHand(s, r);
  }

  lemma {:induction false} HoldingOver(files: map<string, File>, name: string, f: File, r: Reading)
    requires Holding(files, r) == {name} && !(f.content.Entry? && f.content.cached.reading == r)
    ensures |Holding(files[name := f], r)| == 0
  {
    var files' := files[name := f];
    HoldingTake(files, name, r);
    HoldingTake(files', name, r);
    assert files' - {name} == files - {name};
    assert name !in Holding(files', r);
    assert Holding(files', r) == Holding(files', r) - {name} == {name} - {name} == {};
  }

  lemma {:induction false} OnlyElement(names: set<string>, name: string)
    requires name in names && |names| <= 1
    ensures names == {name}
  {
    assert |names - {name}| == 0;
  }

  ghost predicate AlwaysConserved(s: System, acts: seq<Action>)
    requires Possibly(s, acts)
    decreases |acts|
  {
    (forall r :: Conserved(s, r)) && (acts != [] ==> AlwaysConserved(Step(s, acts[0]), acts[1..]))
  }

  // The legal runs are exactly those in which every reading is accounted for throughout.
  lemma {:induction false} AlwaysConservedIff(s: System, acts: seq<Action>)
    requires Inv(s) && Possibly(s, acts)
    ensures AlwaysConserved(s, acts) <==> Legal(s, acts)
    decreases |acts|
  {
    if acts != [] {
      ConservedIff(s, acts[0]);
      if !Clobbers(s, acts[0]) {
        StepKeepsInv(s, acts[0]);
        AlwaysConservedIff(Step(s, acts[0]), acts[1..]);
      }
    }
  }

  // ---------- The size counter inside the system ----------

  // The cache operation that an action performs, if any.
  function OpOf(s: System, a: Action): seq<Op>
    requires Possible(s, a)
  {
    match a
    case CacheWrite(r, nanos, cachedAt, size, disk) => [WriteOp(Entered(r, nanos, cachedAt), size, disk)]
    case ReplayDelete(removable) => [DeleteOp(s.replayer.todo[0].attemptID, removable)]
    case _ => []
  }

  function OpsOf(s: System, acts: seq<Action>): seq<Op>
    requires Possibly(s, acts)
    decreases |acts|
  {
    if acts == [] then [] else OpOf(s, acts[0]) + OpsOf(Step(s, acts[0]), acts[1..])
  }

  lemma {:induction false} LegalIsPossible(s: System, acts: seq<Action>)
    requires Legal(s, acts)
    ensures Possibly(s, acts)
    decreases |acts|
  {
    if acts != [] { LegalIsPossible(Step(s, acts[0]), acts[1..]); }
  }

  lemma {:induction false} StepSeesOp(s: System, a: Action)
    requires Possible(s, a)
    ensures var ops := OpOf(s, a);
            if ops == [] then !a.CacheWrite? && Step(s, a).cache == s.cache
            else |ops| == 1 && Step(s, a).cache == Apply(s.cache, ops[0])
                 && (ops[0].WriteOp? <==> a.CacheWrite?) && (a.CacheWrite? ==> ops[0].disk == a.disk)
  {
  }

  lemma {:induction false} CacheSeesOps(s: System, acts: seq<Action>)
    requires Possibly(s, acts) && Legal(s, acts)
    ensures Run(s, acts).cache == ApplyAll(s.cache, OpsOf(s, acts))
    ensures NoneLeftBehind(acts) ==> Whole(OpsOf(s, acts))
    decreases |acts|
  {
    if acts != [] {
      var s1, op, rest := Step(s, acts[0]), OpOf(s, acts[0]), acts[1..];
      CacheSeesOps(s1, rest);
      StepSeesOp(s, acts[0]);
      hide Step, Possible, Enabled;
      if op != [] {
        assert OpsOf(s, acts)[1..] == OpsOf(s1, rest);
      } else {
        assert OpsOf(s, acts) == OpsOf(s1, rest);
      }
    }
  }

  predicate NoneLeftBehind(acts: seq<Action>) {
    forall i :: 0 <= i < |acts| ==> acts[i].CacheWrite? ==> Clean(acts[i].disk)
  }

  // In every interleaving the size counter is never below the files' total, equals it exactly if
  // no write replaced a file that held anything, and stays within one entry of maxSize.
  lemma {:induction false} SizeStaysExact(s: System, acts: seq<Action>)
    requires Legal(s, acts) && NoneLeftBehind(acts) && s.cache.currentSize == Total(s.cache.files)
    ensures Possibly(s, acts)
    ensures var c, ops := Run(s, acts).cache, OpsOf(s, acts);
            && c.currentSize >= Total(c.files)
            && (c.currentSize == Total(c.files) <==> NothingReplaced(s.cache, ops))
            && c.currentSize <= Max(s.cache.currentSize, s.cache.maxSize - 1 + LargestWrite(ops))
  {
    LegalIsPossible(s, acts);
    CacheSeesOps(s, acts);
    CounterExactIffNothingReplaced(s.cache, OpsOf(s, acts));
    SizeBound(s.cache, OpsOf(s, acts));
  }

  // The attempts of a run differ in clock reading or device, and their names are new.
  predicate FreshAttempts(files: map<string, File>, acts: seq<Action>) {
    && (forall i :: 0 <= i < |acts| && acts[i].CacheWrite? ==> NameOf(acts[i]) !in files)
    && (forall i, j :: 0 <= i < j < |acts| && acts[i].CacheWrite? && acts[j].CacheWrite? ==>
          acts[i].nanos != acts[j].nanos || acts[i].r.deviceID != acts[j].r.deviceID)
  }

  // What the code relies on: attempts that differ in clock reading or device never meet in a file.
  // So the run is legal, and its counter exact.
  lemma {:induction false} FreshAttemptsAreLegal(s: System, acts: seq<Action>)
    requires Possibly(s, acts) && FreshAttempts(s.cache.files, acts)
    ensures Legal(s, acts) && NothingReplaced(s.cache, OpsOf(s, acts))
    decreases |acts|
  {
    if acts != [] {
      var s1, op, rest := Step(s, acts[0]), OpOf(s, acts[0]), acts[1..];
      FreshAttemptsRemain(s, acts);
      FreshAttemptsAreLegal(s1, rest);
      StepSeesOp(s, acts[0]);
      hide Step, Possible, Enabled;
      if op != [] {
        assert OpsOf(s, acts)[1..] == OpsOf(s1, rest);
      } else {
        assert OpsOf(s, acts) == OpsOf(s1, rest);
      }
    }
  }

  lemma {:induction false} FreshAttemptsRemain(s: System, acts: seq<Action>)
    requires acts != [] && Possible(s, acts[0]) && FreshAttempts(s.cache.files, acts)
    ensures FreshAttempts(Step(s, acts[0]).cache.files, acts[1..])
  {
    var a, rest, files' := acts[0], acts[1..], Step(s, acts[0]).cache.files;
    assert forall name :: name in files' ==> name in s.cache.files || (a.CacheWrite? && name == NameOf(a));
    forall i | 0 <= i < |rest| && rest[i].CacheWrite?
      ensures NameOf(rest[i]) !in files'
    {
      assert rest[i] == acts[i + 1];
      if a.CacheWrite? { FileOfAttemptInjective(a.nanos, a.r.deviceID, rest[i].nanos, rest[i].r.deviceID); }
    }
  }

  // ---------- The breaker inside the system ----------

  function AttemptCalls(acts: seq<Action>): seq<Breaker.Call> {
    if acts == [] then []
    else (if acts[0].Attempt? then [acts[0].call] else []) + AttemptCalls(acts[1..])
  }

  // How often writers reached storage.
  function WriterInvocations(s: System, acts: seq<Action>): nat
    requires Legal(s, acts)
    decreases |acts|
  {
    if acts == [] then 0
    else
      (if acts[0].Attempt? && Breaker.Step(s.cfg, s.breaker, acts[0].call).1 != Breaker.Rejected then 1 else 0)
      + WriterInvocations(Step(s, acts[0]), acts[1..])
  }

  lemma {:induction false} BreakerCons(cfg: Breaker.Config, b: Breaker.State, calls: seq<Breaker.Call>)
    requires calls != []
    ensures var (b', reply) := Breaker.Step(cfg, b, calls[0]);
            && Breaker.After(cfg, b, calls) == Breaker.After(cfg, b', calls[1..])
            && Breaker.Invocations(Breaker.Trace(cfg, b, calls))
               == (if reply == Breaker.Rejected then 0 else 1) + Breaker.Invocations(Breaker.Trace(cfg, b', calls[1..]))
  {
    var b', front, tail := Breaker.Step(cfg, b, calls[0]).0, calls[..|calls| - 1], calls[1..];
    if |calls| == 1 {
      assert front == [] && tail == [];
      assert Breaker.Trace(cfg, b, calls)[..0] == [];
    } else {
      BreakerCons(cfg, b, front);
      assert front[1..] == tail[..|tail| - 1];
      var t, u := Breaker.Trace(cfg, b, calls), Breaker.Trace(cfg, b', tail);
      assert t[..|t| - 1] == Breaker.Trace(cfg, b, front);
      assert u[..|u| - 1] == Breaker.Trace(cfg, b', tail[..|tail| - 1]);
    }
  }

  // The breaker sees the writers' attempts, in order, and nothing else: neither replay nor the
  // cache ever moves it.
  lemma {:induction false} BreakerSeesOnlyAttempts(s: System, acts: seq<Action>)
    requires Legal(s, acts)
    ensures Run(s, acts).breaker == Breaker.After(s.cfg, s.breaker, AttemptCalls(acts)) && Run(s, acts).cfg == s.cfg
    ensures WriterInvocations(s, acts) == Breaker.Invocations(Breaker.Trace(s.cfg, s.breaker, AttemptCalls(acts)))
    decreases |acts|
  {
    if acts != [] {
      var s1, rest := Step(s, acts[0]), acts[1..];
      BreakerSeesOnlyAttempts(s1, rest);
      StepMovesBreaker(s, acts[0]);
      hide Step, Enabled, Breaker.Step, Breaker.After, Breaker.Trace, Breaker.Invocations;
      assert Run(s, acts) == Run(s1, rest);
      var calls := AttemptCalls(acts);
      if acts[0].Attempt? {
        assert calls[0] == acts[0].call && calls[1..] == AttemptCalls(rest);
        BreakerCons(s.cfg, s.breaker, calls);
      } else {
        assert calls == AttemptCalls(rest);
      }
    }
  }

  lemma {:induction false} StepMovesBreaker(s: System, a: Action)
    requires Enabled(s, a)
    ensures Step(s, a).cfg == s.cfg
    ensures Step(s, a).breaker == if a.Attempt? then Breaker.Step(s.cfg, s.breaker, a.call).0 else s.breaker
  {
  }

  // However many writers share the breaker and whatever replay does meanwhile, an outage of
  // duration D lets them reach storage at most failureThreshold + floor(D / resetTimeout) times.
  lemma {:induction false} OutageBoundsWriters(s0: System, before: seq<Action>, outage: seq<Action>,
                                               start: int, t0: int, t1: int)
    requires Init(s0) && Breaker.Sensible(s0.cfg) && s0.cfg.resetTimeout > 0
    requires Legal(s0, before) && Legal(Run(s0, before), outage)
    requires Breaker.Timed(AttemptCalls(before), start, t0) && Breaker.Timed(AttemptCalls(outage), t0, t1)
    requires forall i :: 0 <= i < |AttemptCalls(outage)| ==> AttemptCalls(outage)[i].outcome.Fails?
    ensures WriterInvocations(Run(s0, before), outage) <= s0.cfg.failureThreshold + (t1 - t0) / s0.cfg.resetTimeout
  {
    BreakerSeesOnlyAttempts(s0, before);
    BreakerSeesOnlyAttempts(Run(s0, before), outage);
    Breaker.OutageCallBound(s0.cfg, AttemptCalls(before), AttemptCalls(outage), start, t0, t1);
  }
}
