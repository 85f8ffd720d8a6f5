// storage/cache.go: CachingStorage, one method call at a time.

/** The class behind the protocol of StoreForward.  Its ghost field `world` is a state of that
    protocol, and every method is proved to be a legal run of it, so the theorems over all runs
    speak about these methods. */
module CachingStorage {
  import opened Basics
  import opened CacheNames
  import opened LocalCache
  import opened StoreForward
  import opened Replay
  import Breaker

  const REPLAY_BATCH_SIZE := 100

  // What the environment decides during one WriteReading call.
  datatype WriteEnv = WriteEnv(call: Breaker.Call, nanos: int, cachedAt: int, size: nat, disk: DiskWrite)

  // The protocol steps of one WriteReading call that nothing interrupts.
  function WriteSteps(s: System, r: Reading, env: WriteEnv): seq<Action> {
    [Submit(r), Attempt(r, env.call)] +
    (if Breaker.Step(s.cfg, s.breaker, env.call).1 == Breaker.Passed then []
     else [RaiseFlag(r), CacheWrite(r, env.nanos, env.cachedAt, env.size, env.disk)])
  }

  function NameFor(r: Reading, env: WriteEnv): string { FileName(AttemptID(env.nanos, r.deviceID)) }

  predicate Vacant(files: map<string, File>, name: string) {
    name in files ==> !files[name].content.Entry?
  }

  // The tag of r is new, and if the call has to write a file, no entry has that file's name.
  predicate Fits(s: System, r: Reading, env: WriteEnv) {
    && r !in s.calls
    && (Breaker.Step(s.cfg, s.breaker, env.call).1 != Breaker.Passed
        && s.cache.currentSize < s.cache.maxSize && env.disk != Untouched
        ==> Vacant(s.cache.files, NameFor(r, env)))
  }

  // That is just what the protocol asks of an uninterrupted call.
  lemma {:induction false} FitsIffLegal(s: System, r: Reading, env: WriteEnv)
    ensures Fits(s, r, env) <==> Legal(s, WriteSteps(s, r, env))
  {
    if r !in s.calls {
      var first, s2 := [Submit(r), Attempt(r, env.call)], Step(Step(s, Submit(r)), Attempt(r, env.call));
      TwoSteps(s, Submit(r), Attempt(r, env.call));
      if At(s2, r, Accepted) {
        assert WriteSteps(s, r, env) == first;
      } else {
        var write := CacheWrite(r, env.nanos, env.cachedAt, env.size, env.disk);
        LegalPair(s2, RaiseFlag(r), write);
        RunConcat(s, first, [RaiseFlag(r), write]);
      }
    }
  }

  lemma {:induction false} LegalPair(s: System, a: Action, b: Action)
    requires Enabled(s, a)
    ensures Legal(s, [a, b]) <==> Enabled(Step(s, a), b)
  {
    assert [a, b][1..] == [b] && [b][1..] == [];
    assert Legal(s, [a, b]) <==> Legal(Step(s, a), [b]);
  }

  lemma {:induction false} WriteStepsRun(s: System, r: Reading, env: WriteEnv)
    requires Fits(s, r, env)
    ensures var acts, s2 := WriteSteps(s, r, env), Step(Step(s, Submit(r)), Attempt(r, env.call));
            && Legal(s, acts)
            && Run(s, acts) ==
               if At(s2, r, Accepted) then s2
               else Step(Step(s2, RaiseFlag(r)), CacheWrite(r, env.nanos, env.cachedAt, env.size, env.disk))
  {
    var s2 := Step(Step(s, Submit(r)), Attempt(r, env.call));
    TwoSteps(s, Submit(r), Attempt(r, env.call));
    if At(s2, r, Accepted) {
      assert WriteSteps(s, r, env) == [Submit(r), Attempt(r, env.call)];
    } else {
      var write := CacheWrite(r, env.nanos, env.cachedAt, env.size, env.disk);
      TwoSteps(s2, RaiseFlag(r), write);
      RunConcat(s, [Submit(r), Attempt(r, env.call)], [RaiseFlag(r), write]);
    }
  }

  // What an uninterrupted call leaves: its reply moves the breaker, and only its own reading moves,
  // into the log or through the cache.
  lemma {:induction false} WriteStepsEffect(s: System, r: Reading, env: WriteEnv)
    requires Fits(s, r, env)
    ensures Legal(s, WriteSteps(s, r, env))
    ensures var s', (b, reply) := Run(s, WriteSteps(s, r, env)), Breaker.Step(s.cfg, s.breaker, env.call);
            && s'.cfg == s.cfg && s'.breaker == b
            && r in s'.calls && s'.calls == s.calls[r := s'.calls[r]]
            && if reply == Breaker.Passed
               then s'.log == s.log + [r] && s'.cache == s.cache && s'.enabled == s.enabled && At(s', r, Accepted)
               else var (c, ok) := AfterWrite(s.cache, Entered(r, env.nanos, env.cachedAt), env.size, env.disk);
                    && s'.log == s.log && s'.cache == c && s'.enabled
                    && At(s', r, if ok then Accepted else Refused)
  {
    hide Breaker.Step;
    WriteStepsRun(s, r, env);
  }

  lemma {:induction false} CacheWriteNames(c: Cache, e: CachedReading, size: nat, disk: DiskWrite)
    ensures forall name :: name in AfterWrite(c, e, size, disk).0.files ==>
              name in c.files || name == FileName(e.attemptID)
    ensures AfterWrite(c, e, size, disk).1 <==> c.currentSize < c.maxSize && disk == Complete
  {
  }

  lemma {:induction false} WriteNames(s: System, r: Reading, env: WriteEnv)
    requires Fits(s, r, env)
    ensures Legal(s, WriteSteps(s, r, env))
    ensures forall name :: name in Run(s, WriteSteps(s, r, env)).cache.files ==>
              name in s.cache.files || name == NameFor(r, env)
  {
    hide Run, Legal, WriteSteps, AfterWrite;
    WriteStepsEffect(s, r, env);
    CacheWriteNames(s.cache, Entered(r, env.nanos, env.cachedAt), env.size, env.disk);
  }

  function AfterCall(s: System, r: Reading, env: WriteEnv): System
    requires Fits(s, r, env)
  {
    FitsIffLegal(s, r, env);
    Run(s, WriteSteps(s, r, env))
  }

  // Each call of a batch fits where the accepted ones before it leave off.
  predicate BatchFits(s: System, readings: seq<Reading>, envs: seq<WriteEnv>)
    requires |readings| == |envs|
    decreases |readings|
  {
    readings != [] ==>
      && Fits(s, readings[0], envs[0])
      && var s' := AfterCall(s, readings[0], envs[0]);
      At(s', readings[0], Accepted) ==> BatchFits(s', readings[1..], envs[1..])
  }

  // It is enough that the readings are new and differ, and so do the names of their files.
  lemma {:induction false} FreshBatchFits(s: System, readings: seq<Reading>, envs: seq<WriteEnv>)
    requires |readings| == |envs|
    requires forall i :: 0 <= i < |readings| ==>
               readings[i] !in s.calls && NameFor(readings[i], envs[i]) !in s.cache.files
    requires forall i, j :: 0 <= i < j < |readings| ==>
               readings[i] != readings[j] && NameFor(readings[i], envs[i]) != NameFor(readings[j], envs[j])
    ensures BatchFits(s, readings, envs)
    decreases |readings|
  {
    if readings != [] {
      hide NameFor, Run, Legal, WriteSteps, AfterWrite;
      WriteStepsEffect(s, readings[0], envs[0]);
      WriteNames(s, readings[0], envs[0]);
      FreshBatchFits(AfterCall(s, readings[0], envs[0]), readings[1..], envs[1..]);
    }
  }

  // One call of a batch: only its own reading moves, and if it is accepted the rest still fits.
  lemma {:induction false} BatchStep(s: System, readings: seq<Reading>, envs: seq<WriteEnv>, i: nat)
    requires i < |readings| == |envs| && BatchFits(s, readings[i..], envs[i..])
    ensures Fits(s, readings[i], envs[i]) && readings[i] !in s.calls && Legal(s, WriteSteps(s, readings[i], envs[i]))
    ensures var s', r := Run(s, WriteSteps(s, readings[i], envs[i])), readings[i];
            && r in s'.calls && s'.calls == s.calls[r := s'.calls[r]] && s.log <= s'.log
            && (At(s', r, Accepted) || At(s', r, Refused))
            && (At(s', r, Accepted) ==> BatchFits(s', readings[i + 1..], envs[i + 1..]))
  {
    assert readings[i..][1..] == readings[i + 1..] && envs[i..][1..] == envs[i + 1..];
    hide Run, Legal, WriteSteps, AfterWrite;
    WriteStepsEffect(s, readings[i], envs[i]);
  }

  lemma {:induction false} PassSnoc(fates: seq<Fate>, i: nat)
    requires i < |fates|
    ensures PassSteps(fates[..i + 1]) == PassSteps(fates[..i]) + FateSteps(fates[i])
  {
    if i == 0 {
      assert fates[..1][1..] == [];
    } else {
      PassSnoc(fates[1..], i - 1);
      assert fates[..i + 1][1..] == fates[1..][..i] && fates[..i][1..] == fates[1..][..i - 1];
    }
  }

  // w is where w0 stands after the first i entries of its listing.
  ghost predicate Reached(w0: System, w: System, fates: seq<Fate>, i: nat) {
    i <= |fates| && Legal(w0, PassSteps(fates[..i])) && w == Run(w0, PassSteps(fates[..i]))
  }

  // How many of the counts 1 to n end a full batch.
  function FullBatches(n: nat): nat {
    if n == 0 then 0 else FullBatches(n - 1) + (if n % REPLAY_BATCH_SIZE == 0 then 1 else 0)
  }

  lemma {:induction false} FullBatchesDivide(n: nat)
    ensures FullBatches(n) == n / REPLAY_BATCH_SIZE
  {
    if n > 0 { FullBatchesDivide(n - 1); }
  }

  lemma {:induction false} ReachedStart(w0: System, fates: seq<Fate>)
    ensures Reached(w0, w0, fates, 0)
  {
  }

  lemma {:induction false} ReachedEnd(w0: System, w: System, fates: seq<Fate>)
    requires Reached(w0, w, fates, |fates|)
    ensures Legal(w0, PassSteps(fates)) && w == Run(w0, PassSteps(fates))
  {
    assert fates[..|fates|] == fates;
  }

  lemma {:induction false} ReachedNext(w0: System, w: System, w': System, fates: seq<Fate>, i: nat)
    requires i < |fates| && Reached(w0, w, fates, i)
    requires Legal(w, FateSteps(fates[i])) && w' == Run(w, FateSteps(fates[i]))
    ensures Reached(w0, w', fates, i + 1)
  {
    PassSnoc(fates, i);
    RunConcat(w0, PassSteps(fates[..i]), FateSteps(fates[i]));
  }

  // The fates of a listing whose attempts storage refuses, or whose files cannot be removed, by
  // attempt identifier; these are distinct in a listing, so any combination can be expressed.
  function FatesOf(out: seq<CachedReading>, refused: set<string>, stuck: set<string>): (fates: seq<Fate>)
    ensures |fates| == |out|
    ensures forall i :: 0 <= i < |out| ==> fates[i] == Fate(out[i].attemptID !in refused, out[i].attemptID !in stuck)
  {
    if out == [] then []
    else [Fate(out[0].attemptID !in refused, out[0].attemptID !in stuck)] + FatesOf(out[1..], refused, stuck)
  }

  // A listing and the pass over it, as one run.
  lemma {:induction false} ListedPass(w0: System, list: Action, fates: seq<Fate>)
    requires Inv(w0) && w0.replayer == Listing && list.List? && Enabled(w0, list) && |fates| == |list.out|
    ensures var w1, acts := Step(w0, list), [list] + PassSteps(fates);
            && w1 == w0.(replayer := Writing(list.out)) && Inv(w1)
            && Legal(w0, acts) && Legal(w1, PassSteps(fates)) && Run(w0, acts) == Run(w1, PassSteps(fates))
            && var w := Run(w0, acts);
            && w.replayer == Writing([]) && w.log == w0.log + Sent(list.out, fates)
            && w.cache.files == w0.cache.files - Gone(list.out, fates)
  {
    StepKeepsInv(w0, list);
    var w1 := Step(w0, list);
    PassEffect(w1, fates);
    hide Step, Enabled, Inv;
    SingleStep(w0, list);
    RunConcat(w0, [list], PassSteps(fates));
  }

  class CachingStorage {
    const cb: Breaker.CircuitBreaker
    const cache: LocalCache
    var cacheEnabled: bool
    // The storage behind the interface: readings it took, calls it got, flushes, and how much
    // of the log the latest flush covered.
    var log: seq<Reading>
    var asked: nat
    var flushes: nat
    var flushed: nat
    ghost var world: System

    ghost predicate Valid()
      reads this, cb, cache
    {
      && world.cfg == cb.cfg && world.breaker == cb.Snapshot() && world.cache == cache.State()
      && world.enabled == cacheEnabled && world.log == log && Inv(world)
    }

    // NewCachingStorage itself never sets the breaker; it is an argument here.
    constructor (cb: Breaker.CircuitBreaker, cache: LocalCache, ghost start: System)
      requires Init(start) && start.cfg == cb.cfg && start.breaker == cb.Snapshot() && start.cache == cache.State()
      ensures this.cb == cb && this.cache == cache && world == start && Valid()
      ensures flushes == flushed == asked == 0
    {
      this.cb, this.cache := cb, cache;
      cacheEnabled, log, asked, flushes, flushed, world := false, [], 0, 0, 0, start;
      new;
      InitInv(start);
    }

    method WriteReading(r: Reading, env: WriteEnv) returns (ok: bool)
      requires Valid() && Fits(world, r, env)
      modifies this, cb, cache
      ensures Valid()
      ensures var acts := WriteSteps(old(world), r, env);
              Legal(old(world), acts) && world == Run(old(world), acts)
      ensures ok == At(world, r, Accepted)
      // It errs exactly when the guarded write failed and the cache write failed too.
      ensures var reply := Breaker.Step(cb.cfg, old(cb.Snapshot()), env.call).1;
              && asked == old(asked) + (if reply == Breaker.Rejected then 0 else 1)
              && (ok <==> reply == Breaker.Passed
                          || (old(cache.currentSize) < cache.maxSize && env.disk == Complete))
      // The file that a failed guarded write leaves holds the reading, its time and its size.
      ensures Breaker.Step(cb.cfg, old(cb.Snapshot()), env.call).1 != Breaker.Passed
              && old(cache.currentSize) < cache.maxSize && (env.disk == Complete || env.disk == Unreported) ==>
                var name := FileName(AttemptID(env.nanos, r.deviceID));
                && name in cache.files && cache.files[name].content.Entry? && cache.files[name].size == env.size
                && var e := cache.files[name].content.cached;
                e.reading == r && e.cachedAt == env.cachedAt && e.attemptID == AttemptID(env.nanos, r.deviceID)
      ensures forall name :: name in old(cache.files) && name != FileName(AttemptID(env.nanos, r.deviceID)) ==>
                name in cache.files && cache.files[name] == old(cache.files)[name]
      // While the breaker is open and its timeout has not passed, storage is not touched.
      ensures old(cb.phase) == Breaker.Open && env.call.entry - old(cb.lastStateChange) <= cb.cfg.resetTimeout ==>
                asked == old(asked) && log == old(log) && cb.Snapshot() == old(cb.Snapshot())
      ensures flushes == old(flushes) && flushed == old(flushed)
    {
      hide Inv, Run, Legal, WriteSteps, Fits, AttemptID, FileName, AfterWrite;
      ghost var acts := WriteSteps(world, r, env);
      ghost var e := Entered(r, env.nanos, env.cachedAt);
      WriteStepsEffect(world, r, env);
      RunKeepsInv(world, acts);
      CacheWriteNames(cache.State(), e, env.size, env.disk);
      world := Run(world, acts);
      var reply := cb.Execute(env.call);
      if reply != Breaker.Rejected { asked := asked + 1; }
      if reply == Breaker.Passed {
        log := log + [r];
        return true;
      }
      if !cacheEnabled { cacheEnabled := true; }
      ok := cache.Write(Entered(r, env.nanos, env.cachedAt), env.size, env.disk);
    }

    // The index of the first reading that was refused, if any: exactly the readings before it
    // were accepted, and none after it was attempted.
    method WriteBatch(readings: seq<Reading>, envs: seq<WriteEnv>) returns (ok: bool, failedAt: nat)
      requires Valid() && |envs| == |readings| && BatchFits(world, readings, envs)
      modifies this, cb, cache
      ensures Valid()
      ensures ok ==> failedAt == |readings| && world.calls.Keys == old(world.calls.Keys) + Elements(readings)
      ensures !ok ==> failedAt < |readings| && At(world, readings[failedAt], Refused)
      ensures !ok ==> world.calls.Keys == old(world.calls.Keys) + Elements(readings[..failedAt + 1])
      ensures forall i :: 0 <= i < failedAt ==> At(world, readings[i], Accepted)
      ensures forall r :: r in old(world).calls ==> r in world.calls && world.calls[r] == old(world).calls[r]
      ensures old(log) <= log
    {
      hide Inv, Run, Legal, WriteSteps, Fits, BatchFits;
      failedAt := 0;
      while failedAt < |readings|
        invariant failedAt <= |readings| && Valid()
        invariant BatchFits(world, readings[failedAt..], envs[failedAt..])
        invariant forall i :: 0 <= i < failedAt ==> At(world, readings[i], Accepted)
        invariant world.calls.Keys == old(world.calls.Keys) + Elements(readings[..failedAt])
        invariant forall r :: r in old(world).calls ==> r in world.calls && world.calls[r] == old(world).calls[r]
        invariant old(log) <= log
      {
        BatchStep(world, readings, envs, failedAt);
        ElementsNext(readings, failedAt);
        ok := WriteReading(readings[failedAt], envs[failedAt]);
        if !ok { return; }
        failedAt := failedAt + 1;
      }
      assert readings[..failedAt] == readings;
      ok := true;
    }

    // One listed entry: storage first, then the file.
    method SendAndDelete(entry: CachedReading, f: Fate) returns (written: bool)
      requires Valid() && world.replayer.Writing? && world.replayer.todo != [] && world.replayer.todo[0] == entry
      modifies this`log, this`asked, this`world, cache
      ensures Valid() && cb.Snapshot() == old(cb.Snapshot())
      ensures Legal(old(world), FateSteps(f)) && world == Run(old(world), FateSteps(f))
      ensures world.replayer == Writing(old(world).replayer.todo[1..])
      ensures written == f.written && log == old(log) + SentOne(entry, f) && asked == old(asked) + 1
    {
      OneFate(world, f);
      RunKeepsInv(world, FateSteps(f));
      asked := asked + 1;
      if !f.written {
        SingleStep(world, ReplayWrite(false));
        world := Step(world, ReplayWrite(false));
        return false;
      }
      TwoSteps(world, ReplayWrite(true), ReplayDelete(f.removed));
      log := log + [entry.reading];
      world := Step(world, ReplayWrite(true));
      var deleted := cache.DeleteCached(entry.attemptID, f.removed);
      world := Step(world, ReplayDelete(f.removed));
      return true;
    }

    // The body of the replay loop: the entry, then a flush if it completed a batch.
    method ReplayEntry(entry: CachedReading, f: Fate, success: nat,
                       ghost w0: System, ghost fates: seq<Fate>, ghost i: nat)
      returns (success': nat)
      requires Reached(w0, world, fates, i) && i < |fates| && fates[i] == f
      requires Valid() && world.replayer.Writing? && world.replayer.todo != [] && world.replayer.todo[0] == entry
      modifies this, cache
      ensures Valid() && cb.Snapshot() == old(cb.Snapshot())
      ensures Reached(w0, world, fates, i + 1)
      ensures world.replayer == Writing(old(world).replayer.todo[1..])
      ensures success' == success + (if f.written then 1 else 0) && log == old(log) + SentOne(entry, f)
      ensures asked == old(asked) + 1
      ensures flushes == old(flushes) + (if f.written && success' % REPLAY_BATCH_SIZE == 0 then 1 else 0)
    {
      var written := SendAndDelete(entry, f);
      ReachedNext(w0, old(world), world, fates, i);
      success' := success;
      if written {
        success' := success + 1;
        if success' % REPLAY_BATCH_SIZE == 0 {
          flushes, flushed := flushes + 1, |log|;
        }
      }
    }

    // The replay of a listing: in its order, with a flush after every full batch and at the end.
    method ReplayListed(readings: seq<CachedReading>, refused: set<string>, stuck: set<string>)
      returns (success: nat, failed: nat)
      requires Valid() && world.replayer == Writing(readings)
      modifies this, cache
      ensures Valid() && cb.Snapshot() == old(cb.Snapshot())
      ensures var acts := PassSteps(FatesOf(readings, refused, stuck));
              Legal(old(world), acts) && world == Run(old(world), acts)
      ensures asked == old(asked) + |readings| && success + failed == |readings| && |log| == |old(log)| + success
      ensures readings != [] ==> flushes == old(flushes) + success / 100 + 1 && flushed == |log|
      ensures readings == [] ==> flushes == old(flushes)
    {
      hide Inv, Reached;
      var fates := FatesOf(readings, refused, stuck);
      success, failed := 0, 0;
      if |readings| == 0 { return; }
      var i := 0;
      ReachedStart(world, fates);
      while i < |readings|
        invariant i <= |readings| && Valid() && cb.Snapshot() == old(cb.Snapshot())
        invariant Reached(old(world), world, fates, i)
        invariant world.replayer == Writing(readings[i..])
        invariant asked == old(asked) + i && success + failed == i && |log| == |old(log)| + success
        invariant flushes == old(flushes) + FullBatches(success)
      {
        assert readings[i..][1..] == readings[i + 1..];
        var before := success;
        success := ReplayEntry(readings[i], fates[i], success, old(world), fates, i);
        if success == before { failed := failed + 1; }
        i := i + 1;
      }
      ReachedEnd(old(world), world, fates);
      FullBatchesDivide(success);
      flushes, flushed := flushes + 1, |log|;
    }

    method ReplayCachedData(listable: bool, unreadable: set<string>, refused: set<string>, stuck: set<string>)
      returns (ok: bool, success: nat, failed: nat, ghost names: seq<string>, ghost out: seq<CachedReading>)
      requires Valid() && world.replayer == Listing
      modifies this, cache
      ensures Valid() && cb.Snapshot() == old(cb.Snapshot())
      ensures ok == listable
      ensures !ok ==> world == Step(old(world), ListError) && success == failed == 0
                      && flushes == old(flushes) && asked == old(asked)
      ensures ok ==> Listed(old(cache.files), unreadable, names, out)
      ensures ok ==> var acts := [List(unreadable, names, out)] + PassSteps(FatesOf(out, refused, stuck));
                     Legal(old(world), acts) && world == Run(old(world), acts) && world.replayer == Writing([])
      ensures ok ==> log == old(log) + Sent(out, FatesOf(out, refused, stuck))
                     && cache.files == old(cache.files) - Gone(out, FatesOf(out, refused, stuck))
      ensures ok ==> asked == old(asked) + |out|
      ensures ok ==> success + failed == |out| && success == |log| - |old(log)|
      // Every full batch is flushed, and all successes are flushed at the end.
      ensures ok && out != [] ==> flushes == old(flushes) + success / 100 + 1 && flushed == |log|
      ensures ok && out == [] ==> flushes == old(flushes)
    {
      hide Inv, Run, Legal, PassSteps, Sent, Gone, FatesOf;
      success, failed, names, out := 0, 0, [], [];
      if !listable {
        StepKeepsInv(world, ListError);
        world := Step(world, ListError);
        return false, success, failed, names, out;
      }
      var readings;
      readings, names := cache.ListCachedReadings(unreadable);
      out := readings;
      ghost var w0, fates := world, FatesOf(out, refused, stuck);
      ghost var list := List(unreadable, names, out);
      ListedPass(w0, list, fates);
      world := Step(world, list);
      success, failed := ReplayListed(readings, refused, stuck);
      return true, success, failed, names, out;
    }

    // One iteration of monitorAndReplay.
    method MonitorTick(healthy: bool, listable: bool, unreadable: set<string>, refused: set<string>, stuck: set<string>)
      returns (ghost names: seq<string>, ghost out: seq<CachedReading>)
      requires Valid() && world.replayer == Waiting
      modifies this, cache
      ensures Valid() && cb.Snapshot() == old(cb.Snapshot())
      ensures !(old(cacheEnabled) && healthy && listable) ==>
                world == old(world) && flushes == old(flushes) && asked == old(asked)
      ensures old(cacheEnabled) && healthy && listable ==>
                && Listed(old(cache.files), unreadable, names, out)
                && var acts := RecoverySteps(unreadable, names, out, FatesOf(out, refused, stuck));
                Legal(old(world), acts) && world == Run(old(world), acts)
    {
      hide Inv, PassSteps, RecoverySteps, Legal, Run, Sent, Gone, FatesOf, Listed, Step;
      names, out := [], [];
      if !cacheEnabled || !healthy { return; }
      ghost var w0 := world;
      TickOpens(w0);
      world := Step(world, Tick(true));
      var ok, success, failed;
      ok, success, failed, names, out := ReplayCachedData(listable, unreadable, refused, stuck);
      if !ok { return; }
      ghost var list, fates := List(unreadable, names, out), FatesOf(out, refused, stuck);
      RecoveryIsTickReplayClear(w0, list, fates, world);
      cacheEnabled := false;
      world := Run(w0, RecoverySteps(unreadable, names, out, fates));
      RunKeepsInv(w0, RecoverySteps(unreadable, names, out, fates));
    }
  }

  lemma {:induction false} TickOpens(w: System)
    requires Inv(w) && w.replayer == Waiting && w.enabled
    ensures var w' := Step(w, Tick(true));
            w' == w.(replayer := Listing) && Inv(w') && Step(w', ListError) == w
  {
    StepKeepsInv(w, Tick(true));
  }

  lemma {:induction false} RecoveryIsTickReplayClear(w0: System, list: Action, fates: seq<Fate>, w: System)
    requires Inv(w0) && w0.replayer == Waiting && w0.enabled && list.List?
    requires Legal(Step(w0, Tick(true)), [list] + PassSteps(fates))
    requires w == Run(Step(w0, Tick(true)), [list] + PassSteps(fates)) && w.replayer == Writing([])
    ensures var acts := RecoverySteps(list.unreadable, list.names, list.out, fates);
            && Legal(w0, acts)
            && var w' := Run(w0, acts);
            && w'.cfg == w.cfg && w'.breaker == w.breaker && w'.cache == w.cache && w'.log == w.log && !w'.enabled
  {
    var mid := [list] + PassSteps(fates);
    SingleStep(w0, Tick(true));
    RunConcat(w0, [Tick(true)], mid);
    TwoSteps(w, ReplayEnd, ClearFlag);
    RunConcat(w0, [Tick(true)] + mid, [ReplayEnd, ClearFlag]);
    assert RecoverySteps(list.unreadable, list.names, list.out, fates) == [Tick(true)] + mid + [ReplayEnd, ClearFlag];
  }
}
