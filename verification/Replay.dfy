// storage/cache.go: what the replay goroutine achieves, and what it leaves behind.

/** A pass over a listing and a whole recovery as runs of StoreForward, and the exact condition
    under which no cached reading escapes the replayer's notice. */
module Replay {
  import opened Basics
  import opened CacheNames
  import opened LocalCache
  import opened StoreForward
  import Breaker

  // What became of one listed entry; `removed` matters only if it was written.
  datatype Fate = Fate(written: bool, removed: bool)

  function FateSteps(f: Fate): seq<Action> {
    if f.written then [ReplayWrite(true), ReplayDelete(f.removed)] else [ReplayWrite(false)]
  }

  function PassSteps(fates: seq<Fate>): seq<Action> {
    if fates == [] then [] else FateSteps(fates[0]) + PassSteps(fates[1..])
  }

  // What one fate sends to storage, removes from disk, and leaves behind although it was sent.
  function SentOne(e: CachedReading, f: Fate): seq<Reading> { if f.written then [e.reading] else [] }

  function GoneOne(e: CachedReading, f: Fate): set<string> {
    if f.written && f.removed then {FileName(e.attemptID)} else {}
  }

  function KeptOne(e: CachedReading, f: Fate): multiset<Reading> {
    if f.written && !f.removed then multiset{e.reading} else multiset{}
  }

  // The readings storage accepts, in listing order.
  function Sent(todo: seq<CachedReading>, fates: seq<Fate>): seq<Reading>
    requires |todo| == |fates|
  {
    if todo == [] then [] else SentOne(todo[0], fates[0]) + Sent(todo[1..], fates[1..])
  }

  function Gone(todo: seq<CachedReading>, fates: seq<Fate>): set<string>
    requires |todo| == |fates|
  {
    set i | 0 <= i < |todo| && fates[i].written && fates[i].removed :: FileName(todo[i].attemptID)
  }

  function SentAndKept(todo: seq<CachedReading>, fates: seq<Fate>): multiset<Reading>
    requires |todo| == |fates|
  {
    if todo == [] then multiset{} else KeptOne(todo[0], fates[0]) + SentAndKept(todo[1..], fates[1..])
  }

  lemma {:induction false} RunConcat(s: System, a: seq<Action>, b: seq<Action>)
    requires Legal(s, a)
    ensures Legal(s, a + b) <==> Legal(Run(s, a), b)
    ensures Legal(s, a + b) ==> Run(s, a + b) == Run(Run(s, a), b)
    decreases |a|
  {
    if a == [] {
      assert a + b == b;
    } else {
      RunConcat(Step(s, a[0]), a[1..], b);
      assert (a + b)[1..] == a[1..] + b;
    }
  }

  // s and s' differ at most in the replayer's own progress.
  ghost predicate Replayed(s: System, s': System, gone: set<string>, sent: seq<Reading>, kept: multiset<Reading>) {
    && s'.cache.files == s.cache.files - gone && s'.log == s.log + sent && s'.failedDeletes == s.failedDeletes + kept
    && s'.cfg == s.cfg && s'.breaker == s.breaker && s'.calls == s.calls && s'.unreported == s.unreported
    && s'.enabled == s.enabled && s'.edges == s.edges && s'.cache.maxSize == s.cache.maxSize
    && Drift(s'.cache) == Drift(s.cache)
  }

  lemma {:induction false} OneFate(s: System, fate: Fate)
    requires Inv(s) && s.replayer.Writing? && s.replayer.todo != []
    ensures var todo, acts := s.replayer.todo, FateSteps(fate);
            && Legal(s, acts)
            && Run(s, acts).replayer == Writing(todo[1..])
            && Replayed(s, Run(s, acts), GoneOne(todo[0], fate), SentOne(todo[0], fate), KeptOne(todo[0], fate))
  {
    assert Holds(s.cache.files, s.replayer.todo[0]);
    if fate.written {
      StepKeepsInv(s, ReplayWrite(true));
      StepDrift(s.cache, DeleteOp(s.replayer.todo[0].attemptID, fate.removed));
      TwoSteps(s, ReplayWrite(true), ReplayDelete(fate.removed));
    } else {
      SingleStep(s, ReplayWrite(false));
    }
  }

  lemma {:induction false} SingleStep(s: System, a: Action)
    requires Enabled(s, a)
    ensures Legal(s, [a]) && Run(s, [a]) == Step(s, a)
  {
    assert [a][1..] == [];
  }

  lemma {:induction false} TwoSteps(s: System, a: Action, b: Action)
    requires Enabled(s, a) && Enabled(Step(s, a), b)
    ensures Legal(s, [a, b]) && Run(s, [a, b]) == Step(Step(s, a), b)
  {
    assert [a, b][1..] == [b];
    SingleStep(Step(s, a), b);
  }

  // A whole pass over a listing: storage gets the written readings in listing order, and exactly
  // the entries that were both written and removed leave the disk.
  lemma {:induction false} PassEffect(s: System, fates: seq<Fate>)
    requires Inv(s) && s.replayer.Writing? && |fates| == |s.replayer.todo|
    ensures var todo, acts := s.replayer.todo, PassSteps(fates);
            && Legal(s, acts)
            && Run(s, acts).replayer == Writing([])
            && Replayed(s, Run(s, acts), Gone(todo, fates), Sent(todo, fates), SentAndKept(todo, fates))
    decreases |fates|
  {
    var todo := s.replayer.todo;
    if fates == [] {
      assert Gone(todo, fates) == {};
    } else {
      var first, rest := FateSteps(fates[0]), PassSteps(fates[1..]);
      OneFate(s, fates[0]);
      RunKeepsInv(s, first);
      var s1 := Run(s, first);
      PassEffect(s1, fates[1..]);
      RunConcat(s, first, rest);
      GoneSplit(todo, fates);
      ReplayedCompose(s, s1, Run(s1, rest),
                      GoneOne(todo[0], fates[0]), SentOne(todo[0], fates[0]), KeptOne(todo[0], fates[0]),
                      Gone(todo[1..], fates[1..]), Sent(todo[1..], fates[1..]), SentAndKept(todo[1..], fates[1..]));
    }
  }

  lemma {:induction false} ReplayedCompose(
    s: System, s1: System, s2: System, g1: set<string>, l1: seq<Reading>, k1: multiset<Reading>,
    g2: set<string>, l2: seq<Reading>, k2: multiset<Reading>)
    requires Replayed(s, s1, g1, l1, k1) && Replayed(s1, s2, g2, l2, k2)
    ensures Replayed(s, s2, g1 + g2, l1 + l2, k1 + k2)
  {
    assert s.cache.files - g1 - g2 == s.cache.files - (g1 + g2);
  }

  lemma {:induction false} GoneSplit(todo: seq<CachedReading>, fates: seq<Fate>)
    requires |todo| == |fates| && todo != []
    ensures Gone(todo, fates) == GoneOne(todo[0], fates[0]) + Gone(todo[1..], fates[1..])
  {
    forall name | name in Gone(todo, fates)
      ensures name in GoneOne(todo[0], fates[0]) + Gone(todo[1..], fates[1..])
    {
      var i :| 0 <= i < |todo| && fates[i].written && fates[i].removed && name == FileName(todo[i].attemptID);
      if i > 0 { assert todo[1..][i - 1] == todo[i] && fates[1..][i - 1] == fates[i]; }
    }
    forall name | name in Gone(todo[1..], fates[1..])
      ensures name in Gone(todo, fates)
    {
      var i :| 0 <= i < |todo| - 1 && fates[1..][i].written && fates[1..][i].removed
               && name == FileName(todo[1..][i].attemptID);
      assert todo[i + 1] == todo[1..][i] && fates[i + 1] == fates[1..][i];
    }
  }

  // ---------- A pass among other callers ----------

  // What replay steps logged in a run, in order.
  function ReplayLogged(s: System, acts: seq<Action>): seq<Reading>
    requires Legal(s, acts)
    decreases |acts|
  {
    if acts == [] then [] else LoggedIn(s, acts[0]) + ReplayLogged(Step(s, acts[0]), acts[1..])
  }

  function LoggedIn(s: System, a: Action): seq<Reading>
    requires Possible(s, a)
  {
    var log := Step(s, a).log;
    if a.ReplayWrite? && |s.log| <= |log| then log[|s.log|..] else []
  }

  // The names whose files went away in a run, whoever's step it was.
  function Vanished(s: System, acts: seq<Action>): set<string>
    requires Legal(s, acts)
    decreases |acts|
  {
    if acts == [] then {} else VanishedIn(s, acts[0]) + Vanished(Step(s, acts[0]), acts[1..])
  }

  function VanishedIn(s: System, a: Action): set<string>
    requires Possible(s, a)
  {
    s.cache.files.Keys - Step(s, a).cache.files.Keys
  }

  // The fates of the entries that a run finished with: one for each refused write and each delete.
  function FatesIn(acts: seq<Action>): seq<Fate> {
    if acts == [] then [] else FateIn(acts[0]) + FatesIn(acts[1..])
  }

  function FateIn(a: Action): seq<Fate> {
    match a
    case ReplayWrite(false) => [Fate(false, false)]
    case ReplayDelete(removable) => [Fate(true, removable)]
    case _ => []
  }

  predicate NoReplayEnd(acts: seq<Action>) {
    forall i :: 0 <= i < |acts| ==> !acts[i].ReplayEnd?
  }

  // The reading that is stored while its file is still to be deleted.
  function Handed(p: Replayer): seq<Reading> {
    if p.Deleting? && p.todo != [] then [p.todo[0].reading] else []
  }

  predicate InPass(p: Replayer) { p.Writing? || p.Deleting? }

  // From s to s' the replayer finished with the entries of `done`, which had these fates: it logged
  // `sent`, and exactly the files in `gone` went away.
  ghost predicate Finished(s: System, s': System, done: seq<CachedReading>, fates: seq<Fate>,
                           sent: seq<Reading>, gone: set<string>)
    requires |done| == |fates|
  {
    && InPass(s'.replayer) && Pending(s.replayer) == done + Pending(s'.replayer)
    && Handed(s.replayer) + sent == Sent(done, fates) + Handed(s'.replayer)
    && gone == Gone(done, fates)
    && s'.failedDeletes == s.failedDeletes + SentAndKept(done, fates)
  }

  // The entries that the replayer finished with in one step.
  function DoneIn(s: System, a: Action): seq<CachedReading>
    requires Possible(s, a)
    ensures |DoneIn(s, a)| == |FateIn(a)|
  {
    if FateIn(a) != [] then [s.replayer.todo[0]] else []
  }

  lemma {:induction false} StepFinishes(s: System, a: Action)
    requires Inv(s) && InPass(s.replayer) && Enabled(s, a) && !a.ReplayEnd?
    ensures Finished(s, Step(s, a), DoneIn(s, a), FateIn(a), LoggedIn(s, a), VanishedIn(s, a))
  {
    match a
    case ReplayDelete(removable) => DeleteFinishes(s, removable);
    case ReplayWrite(ok) => WriteFinishes(s, ok);
    case _ => CallerFinishesNone(s, a);
  }

  lemma {:induction false} DeleteFinishes(s: System, removable: bool)
    requires Inv(s) && Enabled(s, ReplayDelete(removable))
    ensures var a := ReplayDelete(removable);
            Finished(s, Step(s, a), DoneIn(s, a), FateIn(a), LoggedIn(s, a), VanishedIn(s, a))
  {
    var head := s.replayer.todo[0];
    assert Holds(s.cache.files, head);
    OneDone(head, Fate(true, removable));
    hide Sent, Gone, SentAndKept, Inv, FileName;
    assert s.replayer.todo == [head] + s.replayer.todo[1..];
    assert VanishedIn(s, ReplayDelete(removable)) == GoneOne(head, Fate(true, removable));
  }

  lemma {:induction false} WriteFinishes(s: System, ok: bool)
    requires Enabled(s, ReplayWrite(ok))
    ensures var a := ReplayWrite(ok);
            Finished(s, Step(s, a), DoneIn(s, a), FateIn(a), LoggedIn(s, a), VanishedIn(s, a))
  {
    OneDone(s.replayer.todo[0], Fate(false, false));
    assert Gone([], []) == {};
    assert VanishedIn(s, ReplayWrite(ok)) == {};
    assert s.replayer.todo == [s.replayer.todo[0]] + s.replayer.todo[1..];
    hide Gone;
  }

  lemma {:induction false} OneDone(e: CachedReading, f: Fate)
    ensures Sent([e], [f]) == SentOne(e, f) && Gone([e], [f]) == GoneOne(e, f) && SentAndKept([e], [f]) == KeptOne(e, f)
  {
    assert [e][1..] == [] && [f][1..] == [];
    GoneSplit([e], [f]);
    assert Gone([e][1..], [f][1..]) == {};
  }

  lemma {:induction false} CallerFinishesNone(s: System, a: Action)
    requires InPass(s.replayer) && Enabled(s, a) && !a.ReplayEnd? && !a.ReplayWrite? && !a.ReplayDelete?
    ensures Finished(s, Step(s, a), [], [], LoggedIn(s, a), VanishedIn(s, a))
  {
    hide Breaker.Step, AttemptID, FileName;
    assert Gone([], []) == {};
    assert VanishedIn(s, a) == {};
  }

  lemma {:induction false} DoneConcat(d1: seq<CachedReading>, f1: seq<Fate>, d2: seq<CachedReading>, f2: seq<Fate>)
    requires |d1| == |f1| && |d2| == |f2|
    ensures Sent(d1 + d2, f1 + f2) == Sent(d1, f1) + Sent(d2, f2)
    ensures SentAndKept(d1 + d2, f1 + f2) == SentAndKept(d1, f1) + SentAndKept(d2, f2)
  {
    hide SentOne, KeptOne;
    if d1 == [] {
      assert d1 + d2 == d2 && f1 + f2 == f2;
    } else {
      DoneConcat(d1[1..], f1[1..], d2, f2);
      assert (d1 + d2)[1..] == d1[1..] + d2 && (f1 + f2)[1..] == f1[1..] + f2;
      Reassociate(SentOne(d1[0], f1[0]), Sent(d1[1..], f1[1..]), Sent(d2, f2));
    }
  }

  lemma {:induction false} GoneConcat(d1: seq<CachedReading>, f1: seq<Fate>, d2: seq<CachedReading>, f2: seq<Fate>)
    requires |d1| == |f1| && |d2| == |f2|
    ensures Gone(d1 + d2, f1 + f2) == Gone(d1, f1) + Gone(d2, f2)
  {
    if d1 == [] {
      assert d1 + d2 == d2 && f1 + f2 == f2 && Gone(d1, f1) == {};
    } else {
      GoneConcat(d1[1..], f1[1..], d2, f2);
      GoneSplit(d1 + d2, f1 + f2);
      GoneSplit(d1, f1);
      hide Gone, GoneOne;
      assert (d1 + d2)[1..] == d1[1..] + d2 && (f1 + f2)[1..] == f1[1..] + f2;
    }
  }

  lemma {:induction false} FinishedCompose(
    s: System, s1: System, s2: System, d1: seq<CachedReading>, f1: seq<Fate>, l1: seq<Reading>, g1: set<string>,
    d2: seq<CachedReading>, f2: seq<Fate>, l2: seq<Reading>, g2: set<string>)
    requires |d1| == |f1| && |d2| == |f2|
    requires Finished(s, s1, d1, f1, l1, g1) && Finished(s1, s2, d2, f2, l2, g2)
    ensures Finished(s, s2, d1 + d2, f1 + f2, l1 + l2, g1 + g2)
  {
    DoneConcat(d1, f1, d2, f2);
    GoneConcat(d1, f1, d2, f2);
    hide Handed, Pending, Sent, Gone, SentAndKept;
    Reassociate(d1, d2, Pending(s2.replayer));
    Reassociate(Handed(s.replayer), l1, l2);
    Reassociate(Sent(d1, f1), Handed(s1.replayer), l2);
    Reassociate(Sent(d1, f1), Sent(d2, f2), Handed(s2.replayer));
  }

  // Whatever callers do between the replayer's steps: what it logs is, in listing order, what
  // storage accepted, and no file goes away but those of entries both written and removed.
  lemma {:induction false} PassAmongCallers(s: System, acts: seq<Action>) returns (done: seq<CachedReading>)
    requires Inv(s) && InPass(s.replayer) && Legal(s, acts) && NoReplayEnd(acts)
    ensures |done| == |FatesIn(acts)|
    ensures Finished(s, Run(s, acts), done, FatesIn(acts), ReplayLogged(s, acts), Vanished(s, acts))
    decreases |acts|
  {
    if acts == [] {
      done := [];
      assert Gone([], []) == {};
    } else {
      var a, rest := acts[0], acts[1..];
      var s1 := Step(s, a);
      StepFinishes(s, a);
      StepKeepsInv(s, a);
      assert InPass(s1.replayer);
      hide Finished, Inv, Step, Enabled, FateIn, LoggedIn, VanishedIn;
      var later := PassAmongCallers(s1, rest);
      done := DoneIn(s, a) + later;
      FinishedCompose(s, s1, Run(s1, rest), DoneIn(s, a), FateIn(a), LoggedIn(s, a), VanishedIn(s, a),
                      later, FatesIn(rest), ReplayLogged(s1, rest), Vanished(s1, rest));
    }
  }

  // In every legal run from a listing to the end of its pass.
  lemma {:induction false} ReplayOrderAmongCallers(s: System, list: Action, acts: seq<Action>)
    requires Inv(s) && list.List? && Enabled(s, list) && Legal(Step(s, list), acts) && NoReplayEnd(acts)
    requires Run(Step(s, list), acts).replayer == Writing([])
    ensures var s1, fates := Step(s, list), FatesIn(acts);
            && |fates| == |list.out|
            && ReplayLogged(s1, acts) == Sent(list.out, fates)
            && Vanished(s1, acts) == Gone(list.out, fates)
            && Run(s1, acts).failedDeletes == s.failedDeletes + SentAndKept(list.out, fates)
  {
    StepKeepsInv(s, list);
    var s1 := Step(s, list);
    assert s1 == s.(replayer := Writing(list.out));
    hide Step, Inv, Finished, Run, Legal, Enabled;
    var done := PassAmongCallers(s1, acts);
    FinishedAll(s1, Run(s1, acts), list.out, done, FatesIn(acts), ReplayLogged(s1, acts), Vanished(s1, acts));
  }

  lemma {:induction false} FinishedAll(s: System, s': System, out: seq<CachedReading>, done: seq<CachedReading>,
                                       fates: seq<Fate>, sent: seq<Reading>, gone: set<string>)
    requires |done| == |fates| && Finished(s, s', done, fates, sent, gone)
    requires s.replayer == Writing(out) && s'.replayer == Writing([])
    ensures |fates| == |out| && sent == Sent(out, fates) && gone == Gone(out, fates)
    ensures s'.failedDeletes == s.failedDeletes + SentAndKept(out, fates)
  {
    hide Sent, Gone, SentAndKept;
    assert out == done + [] == done;
    assert [] + sent == sent && Sent(done, fates) + [] == Sent(done, fates);
  }

  // ---------- A recovery left alone ----------

  // The recovery of an undisturbed system: health check, listing, pass, flag down.
  function RecoverySteps(unreadable: set<string>, names: seq<string>, out: seq<CachedReading>,
                         fates: seq<Fate>): seq<Action>
  {
    [Tick(true), List(unreadable, names, out)] + PassSteps(fates) + [ReplayEnd, ClearFlag]
  }

  predicate NoEntries(files: map<string, File>) {
    forall name :: name in files ==> !files[name].content.Entry?
  }

  predicate AllReadable(files: map<string, File>, unreadable: set<string>) {
    forall name :: name in files && files[name].content.Entry? ==> name !in unreadable
  }

  predicate AllDelivered(fates: seq<Fate>) {
    forall i :: 0 <= i < |fates| ==> fates[i].written && fates[i].removed
  }

  // Once storage is healthy an undisturbed recovery lowers the flag and sends the listed readings
  // in the order they were cached.
  lemma {:induction false} RecoveryEffect(s: System, unreadable: set<string>, names: seq<string>,
                                          out: seq<CachedReading>, fates: seq<Fate>)
    requires Inv(s) && s.replayer == Waiting && s.enabled
    requires Listed(s.cache.files, unreadable, names, out) && |fates| == |out|
    ensures var acts := RecoverySteps(unreadable, names, out, fates);
            && Legal(s, acts)
            && var s' := Run(s, acts);
            && !s'.enabled && s'.replayer == Waiting && s'.log == s.log + Sent(out, fates)
            && s'.cache.files == s.cache.files - Gone(out, fates) && s'.breaker == s.breaker && s'.calls == s.calls
            && s'.unreported == s.unreported && s'.cache.maxSize == s.cache.maxSize && Drift(s'.cache) == Drift(s.cache)
  {
    var open, pass, close := [Tick(true), List(unreadable, names, out)], PassSteps(fates), [ReplayEnd, ClearFlag];
    TwoSteps(s, Tick(true), List(unreadable, names, out));
    RunKeepsInv(s, open);
    var s2 := Run(s, open);
    PassEffect(s2, fates);
    var s3 := Run(s2, pass);
    TwoSteps(s3, ReplayEnd, ClearFlag);
    RunConcat(s, open, pass);
    RunConcat(s, open + pass, close);
  }

  // It empties the disk of entries exactly when every entry was readable, written and removed;
  // otherwise it lowers the flag over readings it left behind.
  lemma {:induction false} RecoveryEmptiesIff(s: System, unreadable: set<string>, names: seq<string>,
                                              out: seq<CachedReading>, fates: seq<Fate>)
    requires Inv(s) && s.replayer == Waiting && s.enabled
    requires Listed(s.cache.files, unreadable, names, out) && |fates| == |out|
    ensures var acts := RecoverySteps(unreadable, names, out, fates);
            && Legal(s, acts)
            && (NoEntries(Run(s, acts).cache.files) <==> AllReadable(s.cache.files, unreadable) && AllDelivered(fates))
  {
    RecoveryEffect(s, unreadable, names, out, fates);
    EmptiedIff(s.cache.files, unreadable, names, out, fates);
  }

  lemma {:induction false} EmptiedIff(files: map<string, File>, unreadable: set<string>, names: seq<string>,
                                      out: seq<CachedReading>, fates: seq<Fate>)
    requires Filed(files) && Listed(files, unreadable, names, out) && |fates| == |out|
    ensures NoEntries(files - Gone(out, fates)) <==> AllReadable(files, unreadable) && AllDelivered(fates)
  {
    assert forall i :: 0 <= i < |out| ==>
        files[names[i]].content == Entry(out[i]) && names[i] == FileName(out[i].attemptID);
    var gone := Gone(out, fates);
    forall i | 0 <= i < |out|
      ensures names[i] in gone <==> fates[i].written && fates[i].removed
    {
      if names[i] in gone {
        var j :| 0 <= j < |out| && fates[j].written && fates[j].removed && names[i] == FileName(out[j].attemptID);
        assert names[j] == names[i];
      }
    }
    assert forall name :: name in gone ==> name !in unreadable;
    if NoEntries(files - gone) {
      forall i | 0 <= i < |out|
        ensures names[i] in gone
      {
        assert names[i] in files - gone || names[i] in gone;
      }
      forall name | name in files && files[name].content.Entry?
        ensures name !in unreadable
      {
        assert name in files - gone || name in gone;
      }
    }
  }

  // ---------- Readings that no tick will see ----------

  // Entries on disk imply that the flag is up, so that the next healthy tick replays them.
  predicate Guarded(s: System) { NoEntries(s.cache.files) || s.enabled }

  // The two steps that put an entry out of the ticks' sight: the replayer lowers the flag over an
  // entry it left or never listed, or a call puts its entry on disk after the flag went down.
  predicate Strands(s: System, a: Action) {
    || (a.ClearFlag? && !NoEntries(s.cache.files))
    || (a.CacheWrite? && s.cache.currentSize < s.cache.maxSize
        && (a.disk == Complete || a.disk == Unreported) && !s.enabled)
  }

  lemma {:induction false} GuardedIff(s: System, a: Action)
    requires Guarded(s) && Possible(s, a)
    ensures Guarded(Step(s, a)) <==> !Strands(s, a)
  {
    var s' := Step(s, a);
    if a.CacheWrite? && s.cache.currentSize < s.cache.maxSize && a.disk != Untouched {
      assert s'.cache.files[NameOf(a)] == FileOf(a);
    }
  }

  predicate AlwaysGuarded(s: System, acts: seq<Action>)
    requires Possibly(s, acts)
    decreases |acts|
  {
    Guarded(s) && (acts != [] ==> AlwaysGuarded(Step(s, acts[0]), acts[1..]))
  }

  predicate NeverStrands(s: System, acts: seq<Action>)
    requires Possibly(s, acts)
    decreases |acts|
  {
    acts != [] ==> !Strands(s, acts[0]) && NeverStrands(Step(s, acts[0]), acts[1..])
  }

  // Over every interleaving: no entry is ever out of the ticks' sight exactly if none was left by
  // an earlier process and no step strands one.
  lemma {:induction false} AlwaysGuardedIff(s0: System, acts: seq<Action>)
    requires Init(s0) && Possibly(s0, acts)
    ensures AlwaysGuarded(s0, acts) <==> NoEntries(s0.cache.files) && NeverStrands(s0, acts)
  {
    if NoEntries(s0.cache.files) { StaysGuardedIff(s0, acts); }
  }

  lemma {:induction false} StaysGuardedIff(s: System, acts: seq<Action>)
    requires Guarded(s) && Possibly(s, acts)
    ensures AlwaysGuarded(s, acts) <==> NeverStrands(s, acts)
    decreases |acts|
  {
    if acts != [] {
      GuardedIff(s, acts[0]);
      if !Strands(s, acts[0]) { StaysGuardedIff(Step(s, acts[0]), acts[1..]); }
    }
  }

  // The reading is accepted and on disk, and ticks pass it by.
  predicate Unseen(s: System, r: Reading) {
    && At(s, r, Accepted) && OnDisk(s, r) == 1 && s.replayer == Waiting
    && forall healthy :: Step(s, Tick(healthy)) == s
  }

  // A call that raised the flag may write its file after the replayer has listed the cache and
  // lowered the flag.  Its reading is accepted and on disk, yet ticks ignore it: only the next
  // failed write raises the flag again.  (The reading is not lost; NothingLost still covers it.)
  lemma {:induction false} LateWriteWaitsForNextFailure(s0: System, r: Reading, call: Breaker.Call,
                                                        nanos: int, size: nat)
    requires Init(s0) && s0.calls == map[] && s0.cache.files == map[] && s0.cache.currentSize < s0.cache.maxSize
    requires call.outcome.Fails?
    ensures exists acts :: Legal(s0, acts) && Unseen(Run(s0, acts), r)
  {
    var failing, recovery := FailingCall(r, call), RecoverySteps({}, [], [], []);
    var write := CacheWrite(r, nanos, nanos, size, Complete);
    InitInv(s0);
    FailingCallRaises(s0, r, call);
    hide Inv, FailingCall, RecoverySteps, Unseen;
    var s3 := Run(s0, failing);
    RecoveryEffect(s3, {}, [], [], []);
    var s4 := Run(s3, recovery);
    LateWrite(s4, r, nanos, size);
    SingleStep(s4, write);
    RunConcat(s3, recovery, [write]);
    RunConcat(s0, failing, recovery + [write]);
  }

  function FailingCall(r: Reading, call: Breaker.Call): seq<Action> {
    [Submit(r), Attempt(r, call)] + [RaiseFlag(r)]
  }

  lemma {:induction false} FailingCallRaises(s: System, r: Reading, call: Breaker.Call)
    requires Inv(s) && r !in s.calls && call.outcome.Fails?
    ensures Legal(s, FailingCall(r, call))
    ensures var s' := Run(s, FailingCall(r, call));
            && Inv(s') && At(s', r, Caching) && s'.enabled
            && s'.cache == s.cache && s'.replayer == s.replayer
  {
    TwoSteps(s, Submit(r), Attempt(r, call));
    SingleStep(Run(s, [Submit(r), Attempt(r, call)]), RaiseFlag(r));
    RunConcat(s, [Submit(r), Attempt(r, call)], [RaiseFlag(r)]);
    RunKeepsInv(s, FailingCall(r, call));
  }

  lemma {:induction false} LateWrite(s: System, r: Reading, nanos: int, size: nat)
    requires At(s, r, Caching) && s.cache.files == map[] && s.cache.currentSize < s.cache.maxSize
    requires !s.enabled && s.replayer == Waiting
    ensures Enabled(s, CacheWrite(r, nanos, nanos, size, Complete))
    ensures Unseen(Step(s, CacheWrite(r, nanos, nanos, size, Complete)), r)
  {
    HoldingPut(map[], FileName(AttemptID(nanos, r.deviceID)), File(Entry(Entered(r, nanos, nanos)), size), r);
    assert Holding(map[], r) == {};
  }
}
