// storage/cache.go: the order in which cached readings come out of the cache.

/** From the actions that cached two readings to the log of the replayer, over every interleaving:
    what was cached first is replayed first. */
module CachingOrder {
  import opened LocalCache
  import opened StoreForward
  import opened Replay

  // Every entry of this reading says it was cached at t.
  ghost predicate Stamped(files: map<string, File>, r: Reading, t: int) {
    forall name, e :: name in files && files[name].content == Entry(e) && e.reading == r ==> e.cachedAt == t
  }

  lemma {:induction false} AnsweredStaysStamped(s: System, acts: seq<Action>, r: Reading, t: int)
    requires Legal(s, acts) && (At(s, r, Accepted) || At(s, r, Refused)) && Stamped(s.cache.files, r, t)
    ensures Stamped(Run(s, acts).cache.files, r, t)
    decreases |acts|
  {
    if acts != [] {
      StepStaysStamped(s, acts[0], r, t);
      AnsweredStaysStamped(Step(s, acts[0]), acts[1..], r, t);
    }
  }

  lemma {:induction false} StepStaysStamped(s: System, a: Action, r: Reading, t: int)
    requires Enabled(s, a) && (At(s, r, Accepted) || At(s, r, Refused)) && Stamped(s.cache.files, r, t)
    ensures At(Step(s, a), r, Accepted) || At(Step(s, a), r, Refused)
    ensures Stamped(Step(s, a).cache.files, r, t)
  {
  }

  // A cache write stamps its reading with the time of caching, and nothing ever changes that.
  lemma {:induction false} CachedWhen(s: System, acts: seq<Action>, k: nat)
    requires Inv(s) && Legal(s, acts) && k < |acts| && acts[k].CacheWrite?
    ensures Stamped(Run(s, acts).cache.files, acts[k].r, acts[k].cachedAt)
    decreases k
  {
    var a, s1 := acts[0], Step(s, acts[0]);
    if k > 0 {
      StepKeepsInv(s, a);
      CachedWhen(s1, acts[1..], k - 1);
    } else {
      CacheWriteStamps(s, a);
      AnsweredStaysStamped(s1, acts[1..], a.r, a.cachedAt);
    }
  }

  lemma {:induction false} CacheWriteStamps(s: System, a: Action)
    requires Inv(s) && Enabled(s, a) && a.CacheWrite?
    ensures At(Step(s, a), a.r, Accepted) || At(Step(s, a), a.r, Refused)
    ensures Stamped(Step(s, a).cache.files, a.r, a.cachedAt)
  {
    var files := s.cache.files;
    assert Placed(s, a.r);
    assert Holding(files, a.r) == {};
    forall name, e | name in files && files[name].content == Entry(e)
      ensures e.reading != a.r
    {
      assert name !in Holding(files, a.r);
    }
  }

  // What replay has sent comes from the listing, in its order.
  lemma {:induction false} SentFrom(out: seq<CachedReading>, fates: seq<Fate>, i: nat, j: nat) returns (p: nat, q: nat)
    requires |out| == |fates| && i < j < |Sent(out, fates)|
    ensures p < q < |out| && Sent(out, fates)[i] == out[p].reading && Sent(out, fates)[j] == out[q].reading
    decreases |out|
  {
    var n := |SentOne(out[0], fates[0])|;
    if i >= n {
      p, q := SentFrom(out[1..], fates[1..], i - n, j - n);
      p, q := p + 1, q + 1;
    } else {
      p := 0;
      q := SentOneFrom(out[1..], fates[1..], j - n);
      q := q + 1;
    }
  }

  lemma {:induction false} SentOneFrom(out: seq<CachedReading>, fates: seq<Fate>, j: nat) returns (q: nat)
    requires |out| == |fates| && j < |Sent(out, fates)|
    ensures q < |out| && Sent(out, fates)[j] == out[q].reading
    decreases |out|
  {
    var n := |SentOne(out[0], fates[0])|;
    if j >= n {
      q := SentOneFrom(out[1..], fates[1..], j - n);
      q := q + 1;
    } else {
      q := 0;
    }
  }

  // At any point of a pass over `out`, what replay has logged is what it sent of a prefix of it.
  lemma {:induction false} LoggedIsSent(s: System, out: seq<CachedReading>, acts: seq<Action>)
    returns (done: seq<CachedReading>, fates: seq<Fate>)
    requires Inv(s) && s.replayer == Writing(out) && Legal(s, acts) && NoReplayEnd(acts)
    ensures done <= out && |done| == |fates| && ReplayLogged(s, acts) == Sent(done, fates)
  {
    hide Inv, Legal, Run, FatesIn, ReplayLogged, Finished, Sent, Step, Vanished;
    done := PassAmongCallers(s, acts);
    done, fates := FinishedIsSent(s, Run(s, acts), out, done, FatesIn(acts), ReplayLogged(s, acts), Vanished(s, acts));
  }

  lemma {:induction false} FinishedIsSent(s: System, s': System, out: seq<CachedReading>, done: seq<CachedReading>,
                                          fates: seq<Fate>, sent: seq<Reading>, gone: set<string>)
    returns (done': seq<CachedReading>, fates': seq<Fate>)
    requires |done| == |fates| && Finished(s, s', done, fates, sent, gone) && s.replayer == Writing(out)
    ensures done' <= out && |done'| == |fates'| && sent == Sent(done', fates')
  {
    hide Gone, SentAndKept, Sent;
    done', fates' := done, fates;
    assert [] + sent == sent;
    if s'.replayer.Deleting? && s'.replayer.todo != [] {
      var head, last := s'.replayer.todo[0], Fate(true, false);
      DoneConcat(done, fates, [head], [last]);
      OneDone(head, last);
      done', fates' := done + [head], fates + [last];
    } else {
      assert Sent(done, fates) + [] == Sent(done, fates);
    }
  }

  lemma {:induction false} ListedWhen(s: System, list: Action, e: CachedReading, t: int)
    requires list.List? && Enabled(s, list) && e in list.out && Stamped(s.cache.files, e.reading, t)
    ensures e.cachedAt == t
  {
    var i :| 0 <= i < |list.out| && list.out[i] == e;
    assert s.cache.files[list.names[i]].content == Entry(e);
  }

  // Over every interleaving: of two readings that a pass has logged, the one logged first was not
  // cached after the other, going by the times of the cache writes themselves.
  lemma {:induction false} ReplayedAsCached(s0: System, before: seq<Action>, list: Action, pass: seq<Action>,
                                            i: nat, j: nat, a: nat, b: nat)
    requires Init(s0) && Legal(s0, before) && list.List? && Enabled(Run(s0, before), list)
    requires var s1 := Step(Run(s0, before), list); Legal(s1, pass) && i < j < |ReplayLogged(s1, pass)|
    requires NoReplayEnd(pass)
    requires a < |before| && before[a].CacheWrite? && b < |before| && before[b].CacheWrite?
    requires var log := ReplayLogged(Step(Run(s0, before), list), pass); before[a].r == log[i] && before[b].r == log[j]
    ensures before[a].cachedAt <= before[b].cachedAt
  {
    InitInv(s0);
    RunKeepsInv(s0, before);
    CachedWhen(s0, before, a);
    CachedWhen(s0, before, b);
    OrderInPass(Run(s0, before), list, pass, i, j, before[a].cachedAt, before[b].cachedAt);
  }

  lemma {:induction false} OrderInPass(s: System, list: Action, pass: seq<Action>, i: nat, j: nat, t: int, u: int)
    requires Inv(s) && list.List? && Enabled(s, list) && Legal(Step(s, list), pass) && NoReplayEnd(pass)
    requires var log := ReplayLogged(Step(s, list), pass);
             i < j < |log| && Stamped(s.cache.files, log[i], t) && Stamped(s.cache.files, log[j], u)
    ensures t <= u
  {
    StepKeepsInv(s, list);
    var s1 := Step(s, list);
    assert s1.replayer == Writing(list.out);
    var done, fates := LoggedIsSent(s1, list.out, pass);
    var p, q := SentFrom(done, fates, i, j);
    hide Inv, Step, Legal, ReplayLogged, Sent, Stamped;
    assert list.out[p] == done[p] && list.out[q] == done[q];
    ListedWhen(s, list, list.out[p], t);
    ListedWhen(s, list, list.out[q], u);
  }
}
