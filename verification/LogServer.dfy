/**
 * The log server: a suffix of the chain in memory, a bounded read cache, and a store keyed by block hash.
 * `Serve` shows that the three layers answer every run of commands as one plain chain does.
 */
module LogServers {
  import opened Basics
  import opened Chain
  import opened Quorums

  // ---------------------------------------------------------------- the read cache

  datatype CacheResult = Hit(block: Block) | Above(next: Block) | Miss

  /** A full cache drops its lowest block, unless the new block is lower still: then nothing changes. */
  function CachePut(m: map<nat, Block>, size: nat, b: Block): (m': map<nat, Block>)
    requires size > 0
    ensures forall k :: k in m' ==> (k in m && m'[k] == m[k]) || (k == b.n && m'[k] == b)
    ensures |m| < size || (exists k :: k in m && k <= b.n) ==> b.n in m' && m'[b.n] == b
    ensures forall k :: k in m && k !in m' ==> |m| >= size && k <= b.n && forall j :: j in m ==> k <= j
  {
    if |m| < size then m[b.n := b]
    else if b.n < Least(m.Keys) then m
    else (m - {Least(m.Keys)})[b.n := b]
  }

  class ReadCache {
    var cache: map<nat, Block>
    const workingSetSize: nat

    ghost predicate Valid()
      reads this
    {
      workingSetSize > 0 && |cache| <= workingSetSize
    }

    /** A working set of size 0 is refused with a panic. */
    constructor (workingSetSize: nat)
      requires workingSetSize > 0
      ensures Valid() && cache == map[] && this.workingSetSize == workingSetSize
    {
      cache := map[];
      this.workingSetSize := workingSetSize;
    }

    /** The block itself, else the cached block with the least higher number, else nothing. */
    method Get(n: nat) returns (r: CacheResult)
      ensures r.Hit? <==> n in cache
      ensures r.Hit? ==> r.block == cache[n]
      ensures r.Above? ==> exists k :: k in cache && k > n && r.next == cache[k] && forall j :: j in cache && j > n ==> k <= j
      ensures r.Miss? <==> forall j :: j in cache ==> j < n
    {
      if n in cache {
        return Hit(cache[n]);
      }
      var above := set k | k in cache && k >= n;
      if above == {} {
        assert forall j :: j in cache && j >= n ==> j in above;
        return Miss;
      }
      var k := Least(above);
      assert k in cache && k > n && forall j :: j in cache && j > n ==> j in above;
      return Above(cache[k]);
    }

    method Put(block: Block)
      requires Valid()
      modifies this
      ensures Valid()
      ensures cache == CachePut(old(cache), workingSetSize, block)
    {
      if |cache| >= workingSetSize && block.n < Least(cache.Keys) {
        return;
      }
      if |cache| >= workingSetSize {
        var first := Least(cache.Keys);
        RemoveSize(cache, first);
        cache := cache - {first};
      }
      InsertSize(cache, block.n, block);
      cache := cache[block.n := block];
    }
  }

  lemma {:induction false} RemoveSize(m: map<nat, Block>, k: nat)
    requires k in m
    ensures |m - {k}| == |m| - 1
  {
    assert (m - {k}).Keys == m.Keys - {k};
  }

  lemma {:induction false} InsertSize(m: map<nat, Block>, k: nat, b: Block)
    ensures |m[k := b]| <= |m| + 1
  {
    assert m[k := b].Keys == m.Keys + {k};
  }

  // ---------------------------------------------------------------- retain

  function RetainAbove(log: seq<Block>, g: nat): seq<Block> {
    if log == [] then []
    else if log[0].n > g then [log[0]] + RetainAbove(log[1..], g)
    else RetainAbove(log[1..], g)
  }

  function RetainUpTo(log: seq<Block>, n: nat): seq<Block> {
    if log == [] then []
    else if log[0].n <= n then [log[0]] + RetainUpTo(log[1..], n)
    else RetainUpTo(log[1..], n)
  }

  ghost predicate Contiguous(log: seq<Block>) {
    forall i :: 0 <= i < |log| ==> log[i].n == log[0].n + i
  }

  lemma {:induction false} RetainAboveSuffix(log: seq<Block>, g: nat)
    requires Contiguous(log)
    ensures var drop := if log == [] || g < log[0].n then 0 else if g - log[0].n + 1 >= |log| then |log| else g - log[0].n + 1;
            RetainAbove(log, g) == log[drop..]
  {
    if log != [] {
      RetainAboveSuffix(log[1..], g);
      assert log == [log[0]] + log[1..];
    }
  }

  lemma {:induction false} RetainUpToPrefix(log: seq<Block>, n: nat)
    requires Contiguous(log)
    ensures var keep := if log == [] || n < log[0].n then 0 else if n - log[0].n + 1 >= |log| then |log| else n - log[0].n + 1;
            RetainUpTo(log, n) == log[..keep]
  {
    if log != [] {
      RetainUpToPrefix(log[1..], n);
      assert log == [log[0]] + log[1..];
    }
  }

  /** The number the server takes for its tip. */
  function Tip(log: seq<Block>): nat {
    if log == [] then 0 else log[|log| - 1].n
  }

  /** Garbage collection leaves the tip alone exactly when it stops below it. */
  lemma {:induction false} GcKeepsTip(log: seq<Block>, g: nat)
    requires Contiguous(log) && log != [] && log[0].n >= 1
    ensures Tip(RetainAbove(log, g)) == Tip(log) <==> g < Tip(log)
  {
    RetainAboveSuffix(log, g);
  }

  /** A rollback moves the tip to the requested block exactly when that block is still in memory. */
  lemma {:induction false} RollbackMovesTip(log: seq<Block>, n: nat)
    requires Contiguous(log) && log != [] && log[0].n >= 1 && 1 <= n <= Tip(log)
    ensures Tip(RetainUpTo(log, n)) == n <==> n >= log[0].n
  {
    RetainUpToPrefix(log, n);
  }

  /** Collecting up to the tip leaves an empty log, whose tip counts as 0. */
  lemma {:induction false} GcCanLoseTip(b: Block)
    requires b.n == 1
    ensures Tip([b]) == 1 && RetainAbove([b], 1) == [] && Tip(RetainAbove([b], 1)) == 0
  {
  }

  /** So does a rollback to a block that was already collected. */
  lemma {:induction false} RollbackCanLoseTip(b: Block)
    requires b.n == 5
    ensures Tip([b]) == 5 && RetainUpTo([b], 3) == [] && Tip(RetainUpTo([b], 3)) == 0
  {
  }

  // ---------------------------------------------------------------- the store

  /** Storage re-hashes what it reads, so a corrupted entry is an error and not a wrong block. */
  function StorageGet(store: map<Digest, Block>, h: Digest): Option<Block> {
    if h in store && Sha(store[h]) == h then Some(store[h]) else None
  }

  /** What is read has the hash it was asked for; an entry that has not is an error, and only that or a missing entry is. */
  lemma StorageNeverLies(store: map<Digest, Block>, h: Digest)
    ensures StorageGet(store, h).Some? ==> h in store && Sha(StorageGet(store, h).value) == h && StorageGet(store, h).value == store[h]
    ensures StorageGet(store, h) == None <==> h !in store || Sha(store[h]) != h
  {
  }

  // ---------------------------------------------------------------- the layers against the chain

  /** The log is a suffix of the chain, empty only with it, and the store has every block of the chain. */
  ghost predicate MemoryOk(chain: seq<Block>, log: seq<Block>, store: map<Digest, Block>) {
    && Linked(chain)
    && |log| <= |chain| && (forall i :: 0 <= i < |log| ==> log[i] == chain[|chain| - |log| + i])
    && (chain != [] ==> log != [])
    && (forall i :: 0 <= i < |chain| ==> InStore(store, chain[i]))
  }

  ghost predicate InStore(store: map<Digest, Block>, b: Block) {
    StorageGet(store, Sha(b)) == Some(b)
  }

  ghost predicate CacheOk(chain: seq<Block>, cache: map<nat, Block>) {
    forall k :: k in cache ==> 1 <= k <= |chain| && cache[k] == chain[k - 1] && cache[k].n == k
  }

  lemma LogAt(chain: seq<Block>, log: seq<Block>, store: map<Digest, Block>, i: nat)
    requires MemoryOk(chain, log, store) && i < |log|
    ensures log[i] == chain[|chain| - |log| + i] && log[i].n == |chain| - |log| + i + 1
  {
  }

  lemma {:induction false} LogContiguous(chain: seq<Block>, log: seq<Block>, store: map<Digest, Block>)
    requires MemoryOk(chain, log, store)
    ensures Contiguous(log) && |log| <= |chain| && (log == [] <==> chain == [])
    ensures log != [] ==> log[0].n == |chain| - |log| + 1 && log[|log| - 1].n == |chain|
    ensures log != [] ==> log[|log| - 1] == chain[|chain| - 1]
  {
    forall i | 0 <= i < |log| ensures log[i].n == log[0].n + i {
      LogAt(chain, log, store, i);
      LogAt(chain, log, store, 0);
    }
    if log != [] {
      LogAt(chain, log, store, 0);
      LogAt(chain, log, store, |log| - 1);
    }
  }

  lemma {:induction false} ParentInStore(chain: seq<Block>, log: seq<Block>, store: map<Digest, Block>, n: nat)
    requires MemoryOk(chain, log, store) && 2 <= n <= |chain|
    ensures StorageGet(store, chain[n - 1].parent) == Some(chain[n - 2]) && chain[n - 2].n == n - 1
  {
    assert InStore(store, chain[n - 2]) && NamesParent(chain, n - 1);
  }

  lemma CachePutOk(chain: seq<Block>, cache: map<nat, Block>, size: nat, b: Block)
    requires CacheOk(chain, cache) && size > 0 && 1 <= b.n <= |chain| && b == chain[b.n - 1]
    ensures CacheOk(chain, CachePut(cache, size, b))
  {
  }

  function CacheRetain(cache: map<nat, Block>, n: nat): map<nat, Block> {
    map k | k in cache && k <= n :: cache[k]
  }

  lemma {:induction false} CacheRetainOk(chain: seq<Block>, cache: map<nat, Block>, n: nat)
    requires CacheOk(chain, cache)
    ensures CacheOk(Truncate(chain, n), CacheRetain(cache, n))
    ensures forall k :: k in CacheRetain(cache, n) <==> k in cache && k <= n
    ensures |CacheRetain(cache, n)| <= |cache|
  {
    SubsetSize(CacheRetain(cache, n).Keys, cache.Keys);
  }

  lemma {:induction false} GcMemory(chain: seq<Block>, log: seq<Block>, store: map<Digest, Block>, g: nat)
    requires MemoryOk(chain, log, store) && (chain == [] || g < |chain|)
    ensures MemoryOk(chain, RetainAbove(log, g), store)
    ensures |chain| - |RetainAbove(log, g)| == if chain != [] && g > |chain| - |log| then g else |chain| - |log|
  {
    LogContiguous(chain, log, store);
    RetainAboveSuffix(log, g);
    var kept := RetainAbove(log, g);
    assert kept == chain[|chain| - |kept|..];
  }

  lemma {:induction false} RollbackMemory(chain: seq<Block>, log: seq<Block>, store: map<Digest, Block>, n: nat)
    requires MemoryOk(chain, log, store) && (chain == [] || n > |chain| - |log|)
    ensures MemoryOk(Truncate(chain, n), RetainUpTo(log, n), store)
    ensures |Truncate(chain, n)| - |RetainUpTo(log, n)| == |chain| - |log|
  {
    LogContiguous(chain, log, store);
    RetainUpToPrefix(log, n);
    var c, kept := Truncate(chain, n), RetainUpTo(log, n);
    assert kept == c[|c| - |kept|..];
    forall i | 0 < i < |c| ensures NamesParent(c, i) {
      assert NamesParent(chain, i);
    }
  }

  lemma {:induction false} AppendMemory(chain: seq<Block>, log: seq<Block>, store: map<Digest, Block>, b: Block)
    requires MemoryOk(chain, log, store) && StorageGet(store, Sha(b)) == Some(b)
    requires b.n == |chain| + 1 && (chain == [] || b.parent == Sha(chain[|chain| - 1]))
    ensures MemoryOk(chain + [b], log + [b], store)
    ensures forall cache :: CacheOk(chain, cache) ==> CacheOk(chain + [b], cache)
  {
    forall i | 0 < i < |chain| + 1 ensures NamesParent(chain + [b], i) {
      assert i < |chain| ==> NamesParent(chain, i);
    }
  }

  // ---------------------------------------------------------------- the plain chain as a server

  datatype State = State(chain: seq<Block>, bci: nat, gced: nat, store: map<Digest, Block>)

  datatype Command =
    | StoreBlock(block: Block)
    | NewBlock(block: Block)
    | Rollback(n: nat)
    | UpdateBci(n: nat)
    | Gc(upTo: nat)
    | GetBlock(n: nat)
    | QueryHash(n: nat, hash: Digest)
    | QueryHints(needed: nat)
    | FillFork(first: nat, last: nat, hints: seq<Hint>)

  datatype Response =
    | Done
    | Found(block: Option<Block>)
    | HashMatches(ok: bool)
    | HintList(hints: seq<Hint>)
    | Fork(blocks: seq<Block>)
    | InvalidRange

  /**
   * What the rest of the node guarantees. The broadcaster stores a block before anyone sees it;
   * garbage collection stays below the tip; a rollback stays above what was collected.
   */
  predicate Legal(s: State, c: Command) {
    match c
    case NewBlock(b) => StorageGet(s.store, Sha(b)) == Some(b)
    case Rollback(n) => s.chain == [] || Clamp(n, s.bci) > s.gced
    case Gc(g) => s.chain == [] || g < |s.chain|
    case _ => true
  }

  /** No log, no cache: one sequence of blocks. */
  function Step(s: State, c: Command): (State, Response) {
    match c
    case StoreBlock(b) => (s.(store := s.store[Sha(b) := b]), Done)
    case NewBlock(b) => (s.(chain := Append(s.chain, b)), Done)
    case Rollback(n) => (s.(chain := Truncate(s.chain, Clamp(n, s.bci))), Done)
    case UpdateBci(n) => (s.(bci := n), Done)
    case Gc(g) => (s.(gced := if s.chain != [] && g > s.gced then g else s.gced), Done)
    case GetBlock(n) => (s, Found(Lookup(s.chain, n)))
    case QueryHash(n, h) => (s, HashMatches(CheckHash(s.chain, n, h)))
    case QueryHints(needed) => (s, HintList(Hints(s.chain, needed)))
    case FillFork(first, last, hints) =>
      (s, if last < first then InvalidRange else Fork(FillDown(s.chain, first, last, HintMap(hints))))
  }

  /** What is stored can be read under its hash, and nothing else changes. */
  lemma StoredIsFound(s: State, b: Block, h: Digest)
    ensures var t := Step(s, StoreBlock(b)).0;
            && t == s.(store := t.store) && StorageGet(t.store, Sha(b)) == Some(b)
            && (h != Sha(b) ==> StorageGet(t.store, h) == StorageGet(s.store, h))
  {
  }

  /** Queries change nothing, and are answered from the chain: its block n, whether it has that hash, its hints, its fork. */
  lemma QueriesAnswered(s: State, c: Command)
    requires c.GetBlock? || c.QueryHash? || c.QueryHints? || c.FillFork?
    ensures Step(s, c).0 == s
    ensures c.GetBlock? ==> forall b :: Step(s, c).1 == Found(Some(b)) <==> 1 <= c.n <= |s.chain| && b == s.chain[c.n - 1]
    ensures c.GetBlock? && !(1 <= c.n <= |s.chain|) ==> Step(s, c).1 == Found(None)
    ensures c.QueryHash? ==> Step(s, c).1 == HashMatches(c.n == 0 || (c.n <= |s.chain| && c.hash == Sha(s.chain[c.n - 1])))
    ensures c.QueryHints? ==> Step(s, c).1 == HintList(Hints(s.chain, c.needed))
    ensures c.FillFork? && c.last >= c.first ==> Step(s, c).1 == Fork(FillDown(s.chain, c.first, c.last, HintMap(c.hints)))
    ensures c.FillFork? && c.last < c.first ==> Step(s, c).1 == InvalidRange
  {
    hide FillDown, Hints, HintMap;
  }

  /** The state after the commands, and the responses to them in order. */
  function Run(s: State, cs: seq<Command>): (State, seq<Response>) {
    if cs == [] then (s, [])
    else
      var (s1, rs) := Run(s, cs[..|cs| - 1]);
      var (s2, r) := Step(s1, cs[|cs| - 1]);
      (s2, rs + [r])
  }

  ghost predicate LegalRun(s: State, cs: seq<Command>) {
    forall k :: 0 <= k < |cs| ==> Legal(Run(s, cs[..k]).0, cs[k])
  }

  lemma UnfoldHints(c: seq<Block>, before: seq<Hint>, curr: nat, jump: nat, used: nat)
    requires 1 <= curr < |c| && jump >= 1
    ensures before + HintsFrom(c, curr, jump, used)
         == (before + [HintAt(c, curr)]) + HintsFrom(c, curr + jump, NextJump(jump, used).0, NextJump(jump, used).1)
  {
  }

  lemma UnfoldFill(c: seq<Block>, first: nat, i: nat, hm: map<nat, Digest>, after: seq<Block>)
    requires first <= i && 1 <= i <= |c| && !Matches(c, hm, i)
    ensures FillDown(c, first, i, hm) + after == FillDown(c, first, i - 1, hm) + ([c[i - 1]] + after)
  {
  }

  const READ_CACHE_WSS := 100

  class LogServer {
    var bci: nat
    var log: seq<Block>
    const readCache: ReadCache
    var store: map<Digest, Block>
    /** Every block accepted and not rolled back, collected or not. */
    ghost var chain: seq<Block>

    constructor (store: map<Digest, Block>)
      ensures Valid() && fresh(readCache)
      ensures Abstract() == State([], 0, 0, store)
    {
      bci := 0;
      log := [];
      readCache := new ReadCache(READ_CACHE_WSS);
      this.store := store;
      chain := [];
    }

    ghost predicate Valid()
      reads this, readCache
    {
      && MemoryOk(chain, log, store)
      && readCache.Valid()
      && CacheOk(chain, readCache.cache)
    }

    ghost function Abstract(): State
      reads this
    {
      State(chain, bci, if |log| <= |chain| then |chain| - |log| else 0, store)
    }

    /** Binary search by block number over the in-memory suffix. */
    method FindIndex(n: nat) returns (i: nat)
      requires Contiguous(log) && log != [] && log[0].n <= n <= log[|log| - 1].n
      ensures i < |log| && log[i].n == n
    {
      var lo, hi := 0, |log| - 1;
      while lo < hi
        invariant 0 <= lo <= hi < |log|
        invariant log[lo].n <= n <= log[hi].n
      {
        var mid := (lo + hi) / 2;
        if log[mid].n < n {
          lo := mid + 1;
        } else {
          hi := mid;
        }
      }
      i := lo;
    }

    /** Block n of the full chain, wherever it lives; only the cache may change. */
    method GetBlock(n: nat) returns (r: Option<Block>)
      requires Valid()
      modifies readCache
      ensures Valid()
      ensures r == Lookup(chain, n)
    {
      if log == [] {
        return None;
      }
      LogContiguous(chain, log, store);
      var last := log[|log| - 1].n;
      if n == 0 || n > last {
        return None;
      }
      if n < log[0].n {
        r := GetGcedBlock(n);
        return;
      }
      var i := FindIndex(n);
      LogAt(chain, log, store, i);
      r := Some(log[i]);
    }

    /** Walk parent hashes back from the nearest block at hand; each step goes through the store. */
    method GetGcedBlock(n: nat) returns (r: Option<Block>)
      requires Valid() && log != [] && 1 <= n < log[0].n
      modifies readCache
      ensures Valid()
      ensures r == Lookup(chain, n)
    {
      hide MemoryOk;
      var start := log[0];
      LogContiguous(chain, log, store);
      LogAt(chain, log, store, 0);
      var cached := readCache.Get(n);
      match cached {
        case Hit(block) =>
          return Some(block);
        case Above(next) =>
          start := next;
        case Miss =>
      }
      var ret := start;
      while ret.n > n
        invariant Valid()
        invariant n <= ret.n <= |chain| && ret == chain[ret.n - 1]
        decreases ret.n
      {
        ParentInStore(chain, log, store, ret.n);
        var block := StorageGet(store, ret.parent).value;
        CachePutOk(chain, readCache.cache, readCache.workingSetSize, block);
        readCache.Put(block);
        ret := block;
      }
      r := Some(ret);
    }

    method CheckHash(n: nat, h: Digest) returns (ok: bool)
      requires Valid()
      modifies readCache
      ensures Valid()
      ensures ok == Chain.CheckHash(chain, n, h)
    {
      if n == 0 {
        return true;
      }
      var block := GetBlock(n);
      if block.None? {
        return false;
      }
      ok := Sha(block.value) == h;
    }

    method GetHints(needed: nat) returns (hints: seq<Hint>)
      requires Valid()
      modifies readCache
      ensures Valid()
      ensures hints == Hints(chain, needed)
    {
      hide MemoryOk, CacheOk;
      hints := [];
      LogContiguous(chain, log, store);
      var last := if log == [] then 0 else log[|log| - 1].n;
      var curr, jump, used := needed, JUMP_START, 0;
      ghost var c := chain;
      if curr == 0 {
        curr := 1;
      }
      while curr < last
        invariant Valid() && last == |c| && curr >= 1 && jump >= 1
        invariant hints + HintsFrom(c, curr, jump, used) == Hints(c, needed)
        decreases last - curr
      {
        UnfoldHints(c, hints, curr, jump, used);
        var block := GetBlock(curr);
        if block.None? {
          break;
        }
        ghost var next := NextJump(jump, used);
        hints := hints + [Hint(block.value.n, Sha(block.value))];
        curr := curr + jump;
        used := used + 1;
        if used >= 10 {
          jump := jump * 10;
          used := 0;
        }
        assert (jump, used) == next;
      }
      if last > 0 {
        var block := GetBlock(last);
        assert HintsFrom(c, curr, jump, used) == [HintAt(c, last)];
        hints := hints + [Hint(block.value.n, Sha(block.value))];
      }
    }

    /** An empty range panics in the source; here it is the response InvalidRange. */
    method FillFork(first: nat, last: nat, hints: seq<Hint>) returns (r: Response)
      requires Valid()
      modifies readCache
      ensures Valid()
      ensures r == if last < first then InvalidRange else Fork(FillDown(chain, first, last, HintMap(hints)))
    {
      hide MemoryOk, CacheOk;
      if last < first {
        return InvalidRange;
      }
      var hintMap := map[];
      for k := 0 to |hints|
        invariant hintMap == HintMap(hints[..k])
      {
        assert hints[..k + 1][..k] == hints[..k];
        hintMap := hintMap[hints[k].n := hints[k].digest];
      }
      assert hints[..|hints|] == hints;
      var queue: seq<Block> := [];
      ghost var c := chain;
      var i: int := last;
      while i >= first
        invariant Valid() && i >= first - 1
        invariant FillDown(c, first, i, hintMap) + queue == FillDown(c, first, last, hintMap)
      {
        var block := GetBlock(i);
        if block.None? {
          break;
        }
        if i in hintMap && hintMap[i] == Sha(block.value) {
          break;
        }
        UnfoldFill(c, first, i, hintMap, queue);
        queue := [block.value] + queue;
        i := i - 1;
      }
      r := Fork(queue);
    }

    /** On memory the effect is unconditional; on the full chain it is that of the plain chain when the block is in the store. */
    method HandleNewBlock(block: Block)
      modifies this`log, this`chain
      ensures log == if block.n == Tip(old(log)) + 1 && (Tip(old(log)) == 0 || block.parent == Sha(old(log)[|old(log)| - 1]))
                     then old(log) + [block] else old(log)
      ensures old(Valid() && Legal(Abstract(), NewBlock(block))) ==> Valid() && Abstract() == old(Step(Abstract(), NewBlock(block)).0)
    {
      hide MemoryOk, CacheOk;
      ghost var legal := Valid() && Legal(Abstract(), NewBlock(block));
      if legal {
        LogContiguous(chain, log, store);
      }
      var last := if log == [] then 0 else log[|log| - 1].n;
      if block.n != last + 1 {
        return;
      }
      if last > 0 && block.parent != Sha(log[|log| - 1]) {
        return;
      }
      if legal {
        AppendMemory(chain, log, store, block);
      }
      log := log + [block];
      chain := chain + [block];
    }

    /** On memory the effect is unconditional; the full chain is cut there unless the cut goes into collected blocks. */
    method HandleRollback(n: nat)
      modifies this`log, this`chain, readCache
      ensures log == RetainUpTo(old(log), Clamp(n, bci)) && readCache.cache == CacheRetain(old(readCache.cache), Clamp(n, bci))
      ensures old(Valid() && Legal(Abstract(), Rollback(n))) ==> Valid() && Abstract() == old(Step(Abstract(), Rollback(n)).0)
    {
      hide MemoryOk, CacheOk;
      var keep := n;
      if keep <= bci {
        keep := bci + 1;
      }
      if Valid() && Legal(Abstract(), Rollback(n)) {
        assert keep == Clamp(n, bci) && (chain == [] || keep > |chain| - |log|);
        RollbackMemory(chain, log, store, keep);
        CacheRetainOk(chain, readCache.cache, keep);
      }
      log := RetainUpTo(log, keep);
      chain := Truncate(chain, keep);
      readCache.cache := CacheRetain(readCache.cache, keep);
    }

    method UpdateBci(n: nat)
      requires Valid()
      modifies this`bci
      ensures Valid()
      ensures Abstract() == old(Step(Abstract(), Command.UpdateBci(n)).0)
    {
      bci := n;
    }

    /** On memory the effect is unconditional; the full chain is untouched as long as a block is left. */
    method GarbageCollect(g: nat)
      modifies this`log
      ensures log == RetainAbove(old(log), g)
      ensures old(Valid() && Legal(Abstract(), Gc(g))) ==> Valid() && Abstract() == old(Step(Abstract(), Gc(g)).0)
    {
      hide MemoryOk, CacheOk;
      if Valid() && Legal(Abstract(), Gc(g)) {
        GcMemory(chain, log, store, g);
      }
      log := RetainAbove(log, g);
    }

    method StoreBlock(b: Block)
      requires Valid()
      modifies this`store
      ensures Valid()
      ensures Abstract() == old(Step(Abstract(), Command.StoreBlock(b)).0)
    {
      store := store[Sha(b) := b];
    }

    method Handle(c: Command) returns (r: Response)
      requires Valid()
      modifies this, readCache
      ensures old(Legal(Abstract(), c)) ==> Valid() && (Abstract(), r) == old(Step(Abstract(), c))
    {
      r := Done;
      match c {
        case StoreBlock(b) => StoreBlock(b);
        case NewBlock(b) => HandleNewBlock(b);
        case Rollback(n) => HandleRollback(n);
        case UpdateBci(n) => UpdateBci(n);
        case Gc(g) => GarbageCollect(g);
        case GetBlock(n) =>
          var b := GetBlock(n);
          r := Found(b);
        case QueryHash(n, h) =>
          var ok := CheckHash(n, h);
          r := HashMatches(ok);
        case QueryHints(needed) =>
          var hints := GetHints(needed);
          r := HintList(hints);
        case FillFork(first, last, hints) =>
          r := FillFork(first, last, hints);
      }
    }

    /** Every run: the layered server answers, command by command, exactly what the plain chain answers. */
    method Serve(cs: seq<Command>) returns (rs: seq<Response>)
      requires Valid() && LegalRun(Abstract(), cs)
      modifies this, readCache
      ensures Valid()
      ensures (Abstract(), rs) == old(Run(Abstract(), cs))
    {
      rs := [];
      ghost var start := Abstract();
      for k := 0 to |cs|
        invariant Valid() && (Abstract(), rs) == Run(start, cs[..k])
      {
        assert cs[..k + 1][..k] == cs[..k];
        var r := Handle(cs[k]);
        rs := rs + [r];
      }
      assert cs[..|cs|] == cs;
    }
  }
}
