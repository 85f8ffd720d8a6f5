// storage/cache.go: LocalCache, the file-per-reading fallback store.

/** The cache directory is a map from file names to files.  What the operating system does is
    a parameter of each operation: which files cannot be read or removed, how a write ended. */
module LocalCache {
  import opened Basics
  import opened CacheNames

  // `tag` tells apart the WriteReading calls that submitted otherwise equal readings; the code
  // never looks at it, nor at `payload`.
  datatype Reading = Reading(tag: nat, deviceID: string, payload: int)

  datatype CachedReading = CachedReading(reading: Reading, cachedAt: int, attemptID: string)

  // Garbage is what json.Unmarshal refuses.
  datatype Content = Entry(cached: CachedReading) | Garbage

  datatype File = File(content: Content, size: nat)

  datatype Cache = Cache(files: map<string, File>, currentSize: int, maxSize: int)

  // How writing a file ended: in full, not at all, torn after `size` bytes, or in full although an
  // error was reported (by closing the file, say).
  datatype DiskWrite = Complete | Untouched | Torn(size: nat) | Unreported

  const DEFAULT_MAX_SIZE := 100 * 1024 * 1024
  const DEFAULT_MAX_AGE := 24 * 3600 * 1_000_000_000

  // ---------- Operations on values ----------

  function AfterWrite(c: Cache, entry: CachedReading, size: nat, disk: DiskWrite): (Cache, bool) {
    var name := FileName(entry.attemptID);
    if c.currentSize >= c.maxSize then (c, false)
    else match disk
         case Complete =>
           (c.(files := c.files[name := File(Entry(entry), size)], currentSize := c.currentSize + size), true)
         case Untouched => (c, false)
         case Torn(n) => (c.(files := c.files[name := File(Garbage, n)]), false)
         case Unreported => (c.(files := c.files[name := File(Entry(entry), size)]), false)
  }

  function AfterDelete(c: Cache, attemptID: string, removable: bool): (Cache, bool) {
    var name := FileName(attemptID);
    if name in c.files && removable
    then (c.(files := c.files - {name}, currentSize := c.currentSize - c.files[name].size), true)
    else (c, false)
  }

  // The files CleanupOld removes: readable, parseable, older than the cutoff, and removable.
  function Expired(files: map<string, File>, cutoff: int, unreadable: set<string>, stuck: set<string>): set<string> {
    set name | name in files && name !in unreadable && files[name].content.Entry?
               && files[name].content.cached.cachedAt < cutoff && name !in stuck
  }

  ghost function AfterCleanup(c: Cache, cutoff: int, unreadable: set<string>, stuck: set<string>): Cache {
    var gone := Expired(c.files, cutoff, unreadable, stuck);
    c.(files := c.files - gone, currentSize := c.currentSize - Total(c.files) + Total(c.files - gone))
  }

  // The bytes the files take up together.
  ghost function Total(files: map<string, File>): nat {
    if files == map[] then 0
    else var name :| name in files; files[name].size + Total(files - {name})
  }

  lemma {:induction false} TotalWithout(files: map<string, File>, name: string)
    requires name in files
    ensures Total(files) == files[name].size + Total(files - {name})
    decreases |files|
  {
    var pick :| pick in files && Total(files) == files[pick].size + Total(files - {pick});
    if pick != name {
      TotalWithout(files - {pick}, name);
      TotalWithout(files - {name}, pick);
      assert files - {pick} - {name} == files - {name} - {pick};
    }
  }

  lemma {:induction false} TotalWith(files: map<string, File>, name: string, f: File)
    ensures Total(files[name := f]) == Total(files) + f.size - (if name in files then files[name].size else 0)
  {
    TotalWithout(files[name := f], name);
    assert files[name := f] - {name} == files - {name};
    if name in files { TotalWithout(files, name); } else { assert files - {name} == files; }
  }

  predicate Paired(files: map<string, File>, unreadable: set<string>, names: seq<string>, out: seq<CachedReading>) {
    && |names| == |out|
    && forall i :: 0 <= i < |names| ==>
         names[i] in files && names[i] !in unreadable && files[names[i]].content == Entry(out[i])
  }

  predicate Distinct(names: seq<string>) {
    forall i, j :: 0 <= i < j < |names| ==> names[i] != names[j]
  }

  predicate CompleteFor(files: map<string, File>, unreadable: set<string>, names: seq<string>) {
    forall name :: name in files && name !in unreadable && files[name].content.Entry? ==> name in names
  }

  predicate SortedByTime(out: seq<CachedReading>) {
    forall i, j :: 0 <= i < j < |out| ==> out[i].cachedAt <= out[j].cachedAt
  }

  // Exactly one element for every readable entry file, sorted by the time of caching; ties
  // fall either way.
  predicate Listed(files: map<string, File>, unreadable: set<string>, names: seq<string>, out: seq<CachedReading>) {
    && Paired(files, unreadable, names, out) && Distinct(names)
    && CompleteFor(files, unreadable, names) && SortedByTime(out)
  }

  // The entry files that can be read and parsed.
  function Readable(files: map<string, File>, unreadable: set<string>): set<string> {
    set name | name in files && name !in unreadable && files[name].content.Entry?
  }

  lemma {:induction false} ListedIsExact(files: map<string, File>, unreadable: set<string>,
                                         names: seq<string>, out: seq<CachedReading>)
    requires Listed(files, unreadable, names, out)
    ensures |out| == |Readable(files, unreadable)|
    ensures forall e :: e in out <==>
              exists name :: name in Readable(files, unreadable) && files[name].content == Entry(e)
  {
    assert Readable(files, unreadable) == set name | name in names;
    DistinctCount(names);
    forall e | e in out
      ensures exists name :: name in Readable(files, unreadable) && files[name].content == Entry(e)
    {
      var i :| 0 <= i < |out| && out[i] == e;
      assert names[i] in Readable(files, unreadable);
    }
    forall name | name in Readable(files, unreadable)
      ensures files[name].content.cached in out
    {
      var i :| 0 <= i < |names| && names[i] == name;
      assert out[i] == files[name].content.cached;
    }
  }

  lemma {:induction false} DistinctCount(names: seq<string>)
    requires Distinct(names)
    ensures |set name | name in names| == |names|
  {
    if names != [] {
      var n := |names| - 1;
      DistinctCount(names[..n]);
      assert names == names[..n] + [names[n]];
      assert (set name | name in names) == (set name | name in names[..n]) + {names[n]};
    }
  }

  // ---------- The class ----------

  class LocalCache {
    var files: map<string, File>
    var currentSize: int
    const maxSize: int
    const maxAge: int

    function State(): Cache
      reads this
    {
      Cache(files, currentSize, maxSize)
    }

    // Sizes are counted first, so a file that cannot be examined is missing from currentSize.
    constructor (dir: map<string, File>, maxSize: int, maxAge: int, now: int,
                 unexamined: set<string>, unreadable: set<string>, stuck: set<string>)
      ensures this.maxSize == (if maxSize <= 0 then 104_857_600 else maxSize)
      ensures this.maxAge == (if maxAge <= 0 then 86_400_000_000_000 else maxAge)
      ensures files == dir - Expired(dir, now - this.maxAge, unreadable, stuck)
      // What is fresh, or cannot be parsed, read or removed, stays as it was; nothing old is left of
      // the rest; and nothing else is there.
      ensures forall name :: name in dir && dir[name].content == Garbage ==> name in files
      ensures forall name, e :: name in dir && dir[name].content == Entry(e) ==>
                e.cachedAt >= now - this.maxAge || name in unreadable || name in stuck ==> name in files
      ensures forall name, e :: name in files && files[name].content == Entry(e) ==>
                name in unreadable || name in stuck || e.cachedAt >= now - this.maxAge
      ensures forall name :: name in files ==> name in dir && files[name] == dir[name]
      ensures currentSize == Total(files) - (Total(dir) - Total(dir - unexamined))
    {
      this.maxSize := if maxSize <= 0 then DEFAULT_MAX_SIZE else maxSize;
      this.maxAge := if maxAge <= 0 then DEFAULT_MAX_AGE else maxAge;
      files := dir;
      currentSize := 0;
      new;
      UpdateCurrentSize(unexamined);
      CleanupOld(now, unreadable, stuck);
    }

    method UpdateCurrentSize(unexamined: set<string>)
      modifies this`currentSize
      ensures currentSize == Total(files - unexamined)
    {
      var rest, total := files.Keys, 0;
      assert files - unexamined - rest == map[];
      while rest != {}
        invariant rest <= files.Keys
        invariant total == Total(files - unexamined - rest)
      {
        var name :| name in rest;
        ghost var before := files - unexamined - rest;
        rest := rest - {name};
        if name !in unexamined {
          assert files - unexamined - rest == before[name := files[name]];
          TotalWith(before, name, files[name]);
          total := total + files[name].size;
        } else {
          assert files - unexamined - rest == before;
        }
      }
      assert files - unexamined - rest == files - unexamined;
      currentSize := total;
    }

    method Write(entry: CachedReading, size: nat, disk: DiskWrite) returns (ok: bool)
      modifies this
      ensures (State(), ok) == AfterWrite(old(State()), entry, size, disk)
      ensures ok <==> old(currentSize) < maxSize && disk == Complete
      ensures currentSize == old(currentSize) + (if ok then size else 0)
      // Only the attempt's own file can change, and it has a name that the listing finds.
      ensures forall name :: name in old(files) && name != FileName(entry.attemptID) ==>
                name in files && files[name] == old(files)[name]
      ensures forall name :: name in files && name !in old(files) ==> Globbed(name)
      ensures old(currentSize) < maxSize && (disk == Complete || disk == Unreported) ==>
                FileName(entry.attemptID) in files && files[FileName(entry.attemptID)] == File(Entry(entry), size)
    {
      if currentSize >= maxSize { return false; }
      var name := FileName(entry.attemptID);
      match disk {
        case Untouched => return false;
        case Torn(n) =>
          files := files[name := File(Garbage, n)];
          return false;
        case Unreported =>
          files := files[name := File(Entry(entry), size)];
          return false;
        case Complete =>
          files := files[name := File(Entry(entry), size)];
      }
      currentSize := currentSize + size;
      return true;
    }

    method ListCachedReadings(unreadable: set<string>) returns (out: seq<CachedReading>, ghost names: seq<string>)
      ensures Listed(files, unreadable, names, out)
      ensures SortedByTime(out) && |out| == |Readable(files, unreadable)|
      ensures forall i, j :: 0 <= i < j < |out| ==> out[i].cachedAt <= out[j].cachedAt
      ensures forall e :: e in out <==>
                exists name :: name in files && name !in unreadable && files[name].content == Entry(e)
    {
      out, names := [], [];
      var rest := files.Keys;
      while rest != {}
        invariant rest <= files.Keys
        invariant Listed(files - rest, unreadable, names, out)
      {
        var name :| name in rest;
        ghost var before := files - rest;
        rest := rest - {name};
        assert files - rest == before[name := files[name]];
        if name !in unreadable && files[name].content.Entry? {
          out, names := InsertByTime(before, unreadable, names, out, name, files[name]);
        }
      }
      assert files - rest == files;
      ListedIsExact(files, unreadable, names, out);
    }

    method DeleteCached(attemptID: string, removable: bool) returns (ok: bool)
      modifies this
      ensures (State(), ok) == AfterDelete(old(State()), attemptID, removable)
      ensures ok <==> FileName(attemptID) in old(files) && removable
      ensures files == old(files) - (if ok then {FileName(attemptID)} else {})
      ensures currentSize == old(currentSize) - (if ok then old(files)[FileName(attemptID)].size else 0)
    {
      var name := FileName(attemptID);
      if name !in files { return false; }
      var size := files[name].size;
      if !removable { return false; }
      files := files - {name};
      currentSize := currentSize - size;
      return true;
    }

    method CleanupOld(now: int, unreadable: set<string>, stuck: set<string>)
      modifies this
      ensures State() == AfterCleanup(old(State()), now - maxAge, unreadable, stuck)
      // What is fresh, or cannot be parsed, read or removed, stays as it was; nothing old is left of
      // the rest; and nothing else is there.
      ensures forall name :: name in old(files) && old(files)[name].content == Garbage ==> name in files
      ensures forall name, e :: name in old(files) && old(files)[name].content == Entry(e) ==>
                e.cachedAt >= now - maxAge || name in unreadable || name in stuck ==> name in files
      ensures forall name, e :: name in files && files[name].content == Entry(e) ==>
                name in unreadable || name in stuck || e.cachedAt >= now - maxAge
      ensures forall name :: name in files ==> name in old(files) && files[name] == old(files)[name]
      ensures currentSize == old(currentSize) - Total(old(files)) + Total(files)
    {
      var cutoff := now - maxAge;
      var dir := files;
      var rest := dir.Keys;
      ghost var gone := Expired(dir, cutoff, unreadable, stuck);
      assert dir - (gone - rest) == dir;
      while rest != {}
        invariant rest <= dir.Keys
        invariant files == dir - (gone - rest)
        invariant currentSize == old(currentSize) - Total(dir) + Total(files)
      {
        var name :| name in rest;
        ghost var before := rest;
        rest := rest - {name};
        if && name !in unreadable && dir[name].content.Entry?
           && dir[name].content.cached.cachedAt < cutoff && name !in stuck {
          TotalWithout(files, name);
          assert gone - rest == gone - before + {name};
          files := files - {name};
          currentSize := currentSize - dir[name].size;
        } else {
          assert gone - rest == gone - before;
        }
      }
      assert gone - rest == gone;
    }
  }

  // One step of sorting the listing: sort.Slice promises no order among equal times, and
  // neither does this contract.
  method InsertByTime(ghost files: map<string, File>, ghost unreadable: set<string>, ghost names: seq<string>,
                      out: seq<CachedReading>, ghost name: string, f: File)
    returns (out': seq<CachedReading>, ghost names': seq<string>)
    requires Listed(files, unreadable, names, out)
    requires name !in files && name !in unreadable && f.content.Entry?
    ensures Listed(files[name := f], unreadable, names', out')
    ensures SortedByTime(out') && multiset(out') == multiset(out) + multiset{f.content.cached}
  {
    assert |names| == |out|;
    hide Listed;
    var p := 0;
    while p < |out| && out[p].cachedAt <= f.content.cached.cachedAt
      invariant p <= |out|
      invariant forall i :: 0 <= i < p ==> out[i].cachedAt <= f.content.cached.cachedAt
    {
      p := p + 1;
    }
    out' := out[..p] + [f.content.cached] + out[p..];
    names' := names[..p] + [name] + names[p..];
    SpliceListed(files, unreadable, names, out, name, f, p);
    SpliceMultiset(out, f.content.cached, p);
  }

  lemma {:induction false} SpliceMultiset(out: seq<CachedReading>, c: CachedReading, p: nat)
    requires p <= |out|
    ensures multiset(out[..p] + [c] + out[p..]) == multiset(out) + multiset{c}
  {
    assert out == out[..p] + out[p..];
  }

  lemma {:induction false} SpliceListed(files: map<string, File>, unreadable: set<string>, names: seq<string>,
                                        out: seq<CachedReading>, name: string, f: File, p: nat)
    requires Listed(files, unreadable, names, out)
    requires name !in files && name !in unreadable && f.content.Entry?
    requires p <= |out|
    requires forall i :: 0 <= i < p ==> out[i].cachedAt <= f.content.cached.cachedAt
    requires p == |out| || f.content.cached.cachedAt < out[p].cachedAt
    ensures Listed(files[name := f], unreadable,
                   names[..p] + [name] + names[p..], out[..p] + [f.content.cached] + out[p..])
    ensures SortedByTime(out[..p] + [f.content.cached] + out[p..])
  {
    SplicePaired(files, unreadable, names, out, name, f, p);
    SpliceDistinct(names, name, p);
    SpliceMembers(names, name, p);
    SpliceSorted(out, f.content.cached, p);
  }

  lemma {:induction false} SplicePaired(files: map<string, File>, unreadable: set<string>, names: seq<string>,
                                        out: seq<CachedReading>, name: string, f: File, p: nat)
    requires Paired(files, unreadable, names, out) && p <= |out|
    requires name !in files && name !in unreadable && f.content.Entry?
    ensures name !in names
    ensures Paired(files[name := f], unreadable,
                   names[..p] + [name] + names[p..], out[..p] + [f.content.cached] + out[p..])
  {
  }

  lemma {:induction false} SpliceSorted(out: seq<CachedReading>, c: CachedReading, p: nat)
    requires p <= |out| && SortedByTime(out)
    requires forall i :: 0 <= i < p ==> out[i].cachedAt <= c.cachedAt
    requires p == |out| || c.cachedAt < out[p].cachedAt
    ensures SortedByTime(out[..p] + [c] + out[p..])
  {
  }

  lemma {:induction false} SpliceDistinct(names: seq<string>, name: string, p: nat)
    requires p <= |names| && Distinct(names) && name !in names
    ensures Distinct(names[..p] + [name] + names[p..])
  {
  }

  lemma {:induction false} SpliceMembers(names: seq<string>, name: string, p: nat)
    requires p <= |names|
    ensures forall other :: other in names[..p] + [name] + names[p..] <==> other == name || other in names
  {
    assert names == names[..p] + names[p..];
  }

  // ---------- Laws of every sequence of operations ----------

  datatype Op =
    | WriteOp(entry: CachedReading, size: nat, disk: DiskWrite)
    | DeleteOp(attemptID: string, removable: bool)
    | CleanupOp(cutoff: int, unreadable: set<string>, stuck: set<string>)

  ghost function Apply(c: Cache, op: Op): Cache {
    match op
    case WriteOp(entry, size, disk) => AfterWrite(c, entry, size, disk).0
    case DeleteOp(id, removable) => AfterDelete(c, id, removable).0
    case CleanupOp(cutoff, unreadable, stuck) => AfterCleanup(c, cutoff, unreadable, stuck)
  }

  ghost function ApplyAll(c: Cache, ops: seq<Op>): Cache
    decreases |ops|
  {
    if ops == [] then c else ApplyAll(Apply(c, ops[0]), ops[1..])
  }

  // The bytes that a failed write leaves behind.
  function LeftBehind(size: nat, disk: DiskWrite): nat {
    match disk
    case Torn(n) => n
    case Unreported => size
    case _ => 0
  }

  // Bytes the counter does not know to be gone, less bytes it does not know to be there: a write
  // that reaches the disk forgets the file it replaced, a failed one also the bytes it left.
  function Unaccounted(c: Cache, op: Op): int {
    match op
    case WriteOp(entry, size, disk) =>
      if c.currentSize >= c.maxSize || disk == Untouched then 0
      else Replaced(c, entry) - LeftBehind(size, disk)
    case _ => 0
  }

  function Replaced(c: Cache, entry: CachedReading): nat {
    var name := FileName(entry.attemptID);
    if name in c.files then c.files[name].size else 0
  }

  ghost function AllUnaccounted(c: Cache, ops: seq<Op>): int
    decreases |ops|
  {
    if ops == [] then 0 else Unaccounted(c, ops[0]) + AllUnaccounted(Apply(c, ops[0]), ops[1..])
  }

  ghost function Drift(c: Cache): int { c.currentSize - Total(c.files) }

  lemma {:induction false} StepDrift(c: Cache, op: Op)
    ensures Drift(Apply(c, op)) == Drift(c) + Unaccounted(c, op)
  {
    match op
    case WriteOp(entry, size, disk) =>
      TotalWith(c.files, FileName(entry.attemptID), File(Entry(entry), size));
      if disk.Torn? { TotalWith(c.files, FileName(entry.attemptID), File(Garbage, disk.size)); }
    case DeleteOp(id, removable) =>
      if FileName(id) in c.files { TotalWithout(c.files, FileName(id)); }
    case CleanupOp(_, _, _) =>
  }

  // Over every sequence of operations the size counter is off by exactly the bytes that
  // overwriting and failed writes left unaccounted.
  lemma {:induction false} SizeAccounting(c: Cache, ops: seq<Op>)
    ensures Drift(ApplyAll(c, ops)) == Drift(c) + AllUnaccounted(c, ops)
    decreases |ops|
  {
    if ops != [] {
      StepDrift(c, ops[0]);
      SizeAccounting(Apply(c, ops[0]), ops[1..]);
    }
  }

  // Each write is all or nothing, and is reported as such.
  predicate Clean(disk: DiskWrite) { disk == Complete || disk == Untouched }

  predicate Whole(ops: seq<Op>) {
    forall i :: 0 <= i < |ops| ==> ops[i].WriteOp? ==> Clean(ops[i].disk)
  }

  // Every completed write meets either a free name or an empty file.
  ghost predicate NothingReplaced(c: Cache, ops: seq<Op>)
    decreases |ops|
  {
    ops != [] ==>
      && (ops[0].WriteOp? && c.currentSize < c.maxSize && ops[0].disk == Complete ==> Replaced(c, ops[0].entry) == 0)
      && NothingReplaced(Apply(c, ops[0]), ops[1..])
  }

  // With whole writes the counter never falls below the files' total, and it equals the total
  // exactly when no write replaced a file that held anything.
  lemma {:induction false} CounterExactIffNothingReplaced(c: Cache, ops: seq<Op>)
    requires Whole(ops) && c.currentSize == Total(c.files)
    ensures ApplyAll(c, ops).currentSize >= Total(ApplyAll(c, ops).files)
    ensures ApplyAll(c, ops).currentSize == Total(ApplyAll(c, ops).files) <==> NothingReplaced(c, ops)
  {
    SizeAccounting(c, ops);
    UnaccountedSign(c, ops);
  }

  lemma {:induction false} UnaccountedSign(c: Cache, ops: seq<Op>)
    requires Whole(ops)
    ensures AllUnaccounted(c, ops) >= 0
    ensures AllUnaccounted(c, ops) == 0 <==> NothingReplaced(c, ops)
    decreases |ops|
  {
    if ops != [] { UnaccountedSign(Apply(c, ops[0]), ops[1..]); }
  }

  function LargestWrite(ops: seq<Op>): nat {
    if ops == [] then 0
    else Max(if ops[0].WriteOp? then ops[0].size else 0, LargestWrite(ops[1..]))
  }

  // The counter never exceeds its start or one entry more than maxSize - 1.
  lemma {:induction false} SizeBound(c: Cache, ops: seq<Op>)
    ensures ApplyAll(c, ops).currentSize <= Max(c.currentSize, c.maxSize - 1 + LargestWrite(ops))
    decreases |ops|
  {
    if ops != [] {
      var c' := Apply(c, ops[0]);
      SizeBound(c', ops[1..]);
      if ops[0].CleanupOp? {
        TotalShrinks(c.files, Expired(c.files, ops[0].cutoff, ops[0].unreadable, ops[0].stuck));
      }
    }
  }

  lemma {:induction false} TotalShrinks(files: map<string, File>, gone: set<string>)
    ensures Total(files - gone) <= Total(files)
    decreases |gone|
  {
    if gone == {} {
      assert files - gone == files;
    } else {
      var name :| name in gone;
      TotalShrinks(files, gone - {name});
      var rest := files - (gone - {name});
      assert files - gone == rest - {name};
      if name in files { TotalWithout(rest, name); } else { assert rest - {name} == rest; }
    }
  }
}
