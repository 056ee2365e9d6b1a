/**
 * `fetch_to_mem` (src/s3.rs:42-106): every part of every object is
 * admitted in plan order into a sliding window of at most
 * MAX_CONCURRENT_REQUESTS handles; a full window first awaits its oldest
 * handle; at the end the remaining handles are awaited in order. The first
 * failure awaited ends the run.
 *
 * Tasks are not concurrent here: a task runs to completion when it is
 * spawned, and its handle is its result. Because the slices of distinct
 * tasks are disjoint (Layout.WindowsDisjoint), the order in which tasks
 * write does not change what the region ends up holding.
 */
module Scheduler {
  import opened Wrappers
  import opened Layout
  import opened ObjectStore
  import opened Fetch

  /** What awaiting a task's `JoinHandle` with `??` gives. */
  type Outcome = Result<(), FetchError>

  predicate AllInPlan(cfg: Config, n: nat, parts: seq<Part>)
    requires ValidConfig(cfg)
  {
    forall i :: 0 <= i < |parts| ==> InPlan(cfg, n, parts[i])
  }

  function OutcomeOf(store: Store, chunks: seq<string>, cfg: Config, p: Part): Outcome
    requires ValidConfig(cfg) && p.chunk < |chunks|
  {
    PartOutcome(store, chunks[p.chunk], cfg, p.part)
  }

  function BytesOf(store: Store, chunks: seq<string>, cfg: Config, p: Part): seq<bv8>
    requires ValidConfig(cfg) && p.chunk < |chunks|
  {
    PartBytes(store, chunks[p.chunk], cfg, p.part)
  }

  /** Position `i` of `rs` holds the outcome of task `parts[i]`. */
  predicate OutcomeMatches(store: Store, chunks: seq<string>, cfg: Config, rs: seq<Outcome>, parts: seq<Part>, i: int)
    requires ValidConfig(cfg)
  {
    0 <= i < |rs| && i < |parts| && parts[i].chunk < |chunks| && rs[i] == OutcomeOf(store, chunks, cfg, parts[i])
  }

  /**
   * `rs` lists the outcome of each task of `parts`, in order. The
   * quantifier is only ever instantiated at a position someone asks about.
   */
  predicate OutcomesAre(store: Store, chunks: seq<string>, cfg: Config, rs: seq<Outcome>, parts: seq<Part>)
    requires ValidConfig(cfg)
  {
    && |rs| == |parts|
    && forall i {:trigger OutcomeMatches(store, chunks, cfg, rs, parts, i)} ::
         0 <= i < |parts| ==> OutcomeMatches(store, chunks, cfg, rs, parts, i)
  }

  /** The outcome of each task of `parts`, in order. */
  function Outcomes(store: Store, chunks: seq<string>, cfg: Config, parts: seq<Part>): seq<Outcome>
    requires ValidConfig(cfg) && AllInPlan(cfg, |chunks|, parts)
  {
    seq(|parts|, i requires 0 <= i < |parts| => OutcomeOf(store, chunks, cfg, parts[i]))
  }

  /** Outcomes is the one sequence that OutcomesAre describes. */
  lemma OutcomesDescribed(store: Store, chunks: seq<string>, cfg: Config, rs: seq<Outcome>, parts: seq<Part>)
    requires ValidConfig(cfg) && AllInPlan(cfg, |chunks|, parts)
    ensures OutcomesAre(store, chunks, cfg, rs, parts) <==> rs == Outcomes(store, chunks, cfg, parts)
  {
    if OutcomesAre(store, chunks, cfg, rs, parts) {
      forall i | 0 <= i < |parts|
        ensures rs[i] == Outcomes(store, chunks, cfg, parts)[i]
      {
        assert OutcomeMatches(store, chunks, cfg, rs, parts, i);
      }
    }
    if rs == Outcomes(store, chunks, cfg, parts) {
      forall i | 0 <= i < |parts|
        ensures OutcomeMatches(store, chunks, cfg, rs, parts, i)
      {
      }
    }
  }

  /** The queue position of the first failed outcome, or `|rs|` when there is none. */
  function FirstFailure(rs: seq<Outcome>): (j: nat)
    ensures j <= |rs|
    ensures forall k :: 0 <= k < j ==> rs[k].Ok?
    ensures j < |rs| ==> rs[j].Err?
  {
    if rs == [] then 0 else if rs[0].Err? then 0 else 1 + FirstFailure(rs[1..])
  }

  /** The run's result when outcomes are awaited in queue order and the first failure is returned. */
  function Verdict(rs: seq<Outcome>): (r: Outcome)
    ensures r.Ok? <==> forall k :: 0 <= k < |rs| ==> rs[k].Ok?
    ensures r.Err? ==> exists j :: 0 <= j < |rs| && rs[j] == r && forall k :: 0 <= k < j ==> rs[k].Ok?
  {
    var j := FirstFailure(rs);
    if j < |rs| then Err(rs[j].error) else Ok(())
  }

  /**
   * How many tasks get spawned: all of them, unless a failure at queue
   * position `j` is awaited while tasks remain, which happens when task
   * `j + MAX` needs its place in the window.
   */
  function AdmittedCount(rs: seq<Outcome>, max: nat): (n: nat)
    requires max > 0
    ensures n <= |rs|
    ensures FirstFailure(rs) < |rs| ==> FirstFailure(rs) < n
    ensures FirstFailure(rs) == |rs| ==> n == |rs|
  {
    var j := FirstFailure(rs);
    if j < |rs| then Min(j + max, |rs|) else |rs|
  }

  /** How many handles get awaited: up to and including the first failure, or all. */
  function AwaitedCount(rs: seq<Outcome>): (n: nat)
    ensures n <= |rs|
    ensures forall k :: 0 <= k < n - 1 ==> rs[k].Ok?
    ensures n < |rs| ==> 0 < n && rs[n - 1].Err?
  {
    var j := FirstFailure(rs);
    if j < |rs| then j + 1 else |rs|
  }

  /** A run that awaits a failure at queue position `e`, every earlier handle having succeeded. */
  lemma StopsAt(rs: seq<Outcome>, e: nat, max: nat)
    requires max > 0 && e < |rs| && rs[e].Err? && FirstFailure(rs) >= e
    ensures FirstFailure(rs) == e && Verdict(rs) == rs[e]
    ensures AwaitedCount(rs) == e + 1 && AdmittedCount(rs, max) == Min(e + max, |rs|)
  {
  }

  /** When the first `e` handles have succeeded, the run's result is that of the rest of the queue. */
  lemma {:induction false} Resumed(rs: seq<Outcome>, e: nat, max: nat)
    requires max > 0 && e <= |rs| && FirstFailure(rs) >= e
    ensures FirstFailure(rs) == e + FirstFailure(rs[e..])
    ensures Verdict(rs) == Verdict(rs[e..])
    ensures AwaitedCount(rs) == e + AwaitedCount(rs[e..])
  {
    if e > 0 {
      assert rs[0].Ok?;
      assert rs[1..][e - 1..] == rs[e..];
      Resumed(rs[1..], e - 1, max);
    }
  }

  /** A run whose every handle succeeds. */
  lemma RunsThrough(rs: seq<Outcome>, max: nat)
    requires max > 0 && FirstFailure(rs) == |rs|
    ensures Verdict(rs) == Ok(())
    ensures AwaitedCount(rs) == |rs| && AdmittedCount(rs, max) == |rs|
  {
  }

  /** The queue `rs[e..t]` after spawning task `t`. */
  lemma Pushed(rs: seq<Outcome>, e: nat, t: nat, handles: seq<Outcome>)
    requires e <= t < |rs| && handles == rs[e..t]
    ensures handles + [rs[t]] == rs[e..t + 1]
  {
  }

  /** The queue `rs[e..t]` after removing its oldest handle. */
  lemma Popped(rs: seq<Outcome>, e: nat, t: nat, handles: seq<Outcome>)
    requires e < t <= |rs| && handles == rs[e..t]
    ensures handles[0] == rs[e] && handles[1..] == rs[e + 1..t]
  {
  }

  /** Awaiting a successful handle at position `e` moves the first possible failure past it. */
  lemma Passed(rs: seq<Outcome>, e: nat)
    requires e < |rs| && rs[e].Ok? && FirstFailure(rs) >= e
    ensures FirstFailure(rs) >= e + 1
  {
  }

  /** The region `s` after the first `n` planned tasks have written their slices, in plan order. */
  function Applied(s: seq<bv8>, store: Store, chunks: seq<string>, cfg: Config, n: nat): (t: seq<bv8>)
    requires ValidConfig(cfg) && |chunks| * cfg.chunkSize <= |s| && n <= |Plan(cfg, |chunks|)|
    ensures |t| == |s|
  {
    if n == 0 then s
    else
      var p := Plan(cfg, |chunks|)[n - 1];
      WindowInRegion(cfg, |chunks|, p);
      Paste(Applied(s, store, chunks, cfg, n - 1), WindowStart(cfg, p), BytesOf(store, chunks, cfg, p))
  }

  /** The region once every planned task has written its slice. */
  function Filled(s: seq<bv8>, store: Store, chunks: seq<string>, cfg: Config): (t: seq<bv8>)
    requires ValidConfig(cfg) && |chunks| * cfg.chunkSize <= |s|
    ensures |t| == |s|
  {
    Applied(s, store, chunks, cfg, |Plan(cfg, |chunks|)|)
  }

  /** Distinct positions of the plan hold distinct parts, so their slices share no byte. */
  lemma PlanDisjoint(cfg: Config, n: nat, i: nat, j: nat)
    requires ValidConfig(cfg) && i < j < |Plan(cfg, n)|
    ensures Disjoint(cfg, Plan(cfg, n)[i], Plan(cfg, n)[j])
  {
    PlanOrdered(cfg, n);
    assert Before(Plan(cfg, n)[i], Plan(cfg, n)[j]);
    WindowsDisjoint(cfg, Plan(cfg, n)[i], Plan(cfg, n)[j]);
  }

  /** Byte `x` after task `n - 1`, the part `q`, has written its slice. */
  lemma AppliedStep(s: seq<bv8>, store: Store, chunks: seq<string>, cfg: Config, n: nat, q: Part, x: nat)
    requires ValidConfig(cfg) && |chunks| * cfg.chunkSize <= |s| && 0 < n <= |Plan(cfg, |chunks|)| && x < |s|
    requires Plan(cfg, |chunks|)[n - 1] == q
    ensures q.chunk < |chunks|
    ensures Applied(s, store, chunks, cfg, n)[x] ==
            if WindowStart(cfg, q) <= x < WindowStart(cfg, q) + |BytesOf(store, chunks, cfg, q)|
            then BytesOf(store, chunks, cfg, q)[x - WindowStart(cfg, q)]
            else Applied(s, store, chunks, cfg, n - 1)[x]
  {
    assert InPlan(cfg, |chunks|, q);
    WindowInRegion(cfg, |chunks|, q);
  }

  /** A byte outside the slices of the first `n` tasks keeps its value. */
  lemma {:induction false} AppliedOutside(s: seq<bv8>, store: Store, chunks: seq<string>, cfg: Config, n: nat, x: nat)
    requires ValidConfig(cfg) && |chunks| * cfg.chunkSize <= |s| && n <= |Plan(cfg, |chunks|)| && x < |s|
    requires forall i :: 0 <= i < n ==> !InWindow(cfg, Plan(cfg, |chunks|)[i], x)
    ensures Applied(s, store, chunks, cfg, n)[x] == s[x]
  {
    if n > 0 {
      var q := Plan(cfg, |chunks|)[n - 1];
      assert !InWindow(cfg, q, x);
      AppliedStep(s, store, chunks, cfg, n, q, x);
      AppliedOutside(s, store, chunks, cfg, n - 1, x);
    }
  }

  /**
   * A byte inside the slice of task `i`, one of the first `n`, holds what
   * that task copied there; past the end of a short body it keeps its value.
   * No other task overwrites it, whatever their order.
   */
  lemma {:induction false} AppliedInside(s: seq<bv8>, store: Store, chunks: seq<string>, cfg: Config, n: nat, i: nat, p: Part, x: nat)
    requires ValidConfig(cfg) && |chunks| * cfg.chunkSize <= |s| && i < n <= |Plan(cfg, |chunks|)| && x < |s|
    requires Plan(cfg, |chunks|)[i] == p && InWindow(cfg, p, x)
    ensures p.chunk < |chunks|
    ensures Applied(s, store, chunks, cfg, n)[x] ==
            if x - WindowStart(cfg, p) < |BytesOf(store, chunks, cfg, p)|
            then BytesOf(store, chunks, cfg, p)[x - WindowStart(cfg, p)] else s[x]
  {
    var plan := Plan(cfg, |chunks|);
    var q := plan[n - 1];
    AppliedStep(s, store, chunks, cfg, n, q, x);
    if i == n - 1 {
      if x - WindowStart(cfg, p) >= |BytesOf(store, chunks, cfg, p)| {
        forall j | 0 <= j < n - 1
          ensures !InWindow(cfg, plan[j], x)
        {
          PlanDisjoint(cfg, |chunks|, j, n - 1);
        }
        AppliedOutside(s, store, chunks, cfg, n - 1, x);
      }
    } else {
      PlanDisjoint(cfg, |chunks|, i, n - 1);
      assert !InWindow(cfg, q, x);
      AppliedInside(s, store, chunks, cfg, n - 1, i, p, x);
    }
  }

  /**
   * Every object of the list exists, holds at least the bytes its parts
   * ask for, and no request to it breaks before a whole part has arrived.
   */
  predicate Healthy(store: Store, chunks: seq<string>, cfg: Config)
    requires ValidConfig(cfg)
  {
    forall c :: 0 <= c < |chunks| ==>
      && chunks[c] in store.objects
      && PartsPerChunk(cfg) * cfg.partSize <= |store.objects[chunks[c]].content|
      && Reliable(store.objects[chunks[c]], cfg)
  }

  /** No request to the object breaks before it has delivered PART_SIZE bytes. */
  predicate Reliable(o: StoredObject, cfg: Config) {
    forall s :: s in o.breaks ==> o.breaks[s] >= cfg.partSize
  }

  /** Each part of a healthy object succeeds and delivers its PART_SIZE bytes of the object. */
  lemma HealthyPart(store: Store, chunks: seq<string>, cfg: Config, p: Part)
    requires ValidConfig(cfg) && Healthy(store, chunks, cfg) && p.chunk < |chunks| && p.part < PartsPerChunk(cfg)
    ensures chunks[p.chunk] in store.objects
    ensures p.part * cfg.partSize + cfg.partSize <= |store.objects[chunks[p.chunk]].content|
    ensures OutcomeOf(store, chunks, cfg, p) == Ok(())
    ensures BytesOf(store, chunks, cfg, p) ==
            store.objects[chunks[p.chunk]].content[p.part * cfg.partSize .. p.part * cfg.partSize + cfg.partSize]
  {
    assert (p.part + 1) * cfg.partSize == p.part * cfg.partSize + cfg.partSize;
    var key := chunks[p.chunk];
    assert key in store.objects && PartsPerChunk(cfg) * cfg.partSize <= |store.objects[key].content|;
    MulLeft(p.part + 1, PartsPerChunk(cfg), cfg.partSize);
    FullPartArrives(store, key, cfg, p.part);
  }

  /** Against a healthy store every task succeeds, so every task is spawned and awaited and the run returns `Ok(())`. */
  lemma HealthyRun(store: Store, chunks: seq<string>, cfg: Config, rs: seq<Outcome>)
    requires ValidConfig(cfg) && Healthy(store, chunks, cfg)
    requires OutcomesAre(store, chunks, cfg, rs, Plan(cfg, |chunks|))
    ensures Verdict(rs) == Ok(())
    ensures AdmittedCount(rs, cfg.maxConcurrent) == AwaitedCount(rs) == |rs| == |Plan(cfg, |chunks|)|
  {
    var plan := Plan(cfg, |chunks|);
    forall i | 0 <= i < |rs|
      ensures rs[i].Ok?
    {
      assert OutcomeMatches(store, chunks, cfg, rs, plan, i);
      HealthyPart(store, chunks, cfg, plan[i]);
    }
  }

  /** Offset `x` lies in the slice of part `p` of object `c`, which is task `i` of the plan. */
  lemma TaskOf(cfg: Config, n: nat, c: nat, p: nat, x: int) returns (i: nat)
    requires ValidConfig(cfg) && c < n && p < PartsPerChunk(cfg) && InWindow(cfg, Part(c, p), x)
    ensures i < |Plan(cfg, n)| && Plan(cfg, n)[i] == Part(c, p) && InWindow(cfg, Plan(cfg, n)[i], x)
  {
    PlanStep(cfg, n, c, p);
    i := |Plan(cfg, c)| + p;
  }

  /** Offset `o` of object `c`'s chunk lies in no slice when no part of `c` covers it. */
  lemma Uncovered(cfg: Config, n: nat, c: nat, o: nat)
    requires ValidConfig(cfg) && c < n && PartsPerChunk(cfg) * cfg.partSize <= o < cfg.chunkSize
    ensures forall i :: 0 <= i < |Plan(cfg, n)| ==> !InWindow(cfg, Plan(cfg, n)[i], c * cfg.chunkSize + o)
  {
    var x := c * cfg.chunkSize + o;
    ChunkCoverage(cfg, c, x);
    forall i | 0 <= i < |Plan(cfg, n)|
      ensures !InWindow(cfg, Plan(cfg, n)[i], x)
    {
      var q := Plan(cfg, n)[i];
      WindowInChunk(cfg, q);
      if q.chunk < c {
        MulLeft(q.chunk + 1, c, cfg.chunkSize);
      } else if c < q.chunk {
        MulLeft(c + 1, q.chunk, cfg.chunkSize);
      } else {
        assert q == Part(c, q.part);
      }
    }
  }

  /** Byte `d` of the slice of part `p` of a healthy object `c` holds the object's byte there. */
  lemma HealthyCovered(s: seq<bv8>, store: Store, chunks: seq<string>, cfg: Config, c: nat, p: nat, d: nat)
    requires ValidConfig(cfg) && Healthy(store, chunks, cfg) && |chunks| * cfg.chunkSize <= |s|
    requires c < |chunks| && p < PartsPerChunk(cfg) && d < cfg.partSize
    ensures WindowStart(cfg, Part(c, p)) + d < |s|
    ensures chunks[c] in store.objects && p * cfg.partSize + d < |store.objects[chunks[c]].content|
    ensures Filled(s, store, chunks, cfg)[WindowStart(cfg, Part(c, p)) + d] ==
            store.objects[chunks[c]].content[p * cfg.partSize + d]
  {
    var x := WindowStart(cfg, Part(c, p)) + d;
    assert InWindow(cfg, Part(c, p), x);
    HealthyPart(store, chunks, cfg, Part(c, p));
    WindowInRegion(cfg, |chunks|, Part(c, p));
    var i := TaskOf(cfg, |chunks|, c, p, x);
    AppliedInside(s, store, chunks, cfg, |Plan(cfg, |chunks|)|, i, Part(c, p), x);
    var w := BytesOf(store, chunks, cfg, Part(c, p));
    assert |w| == cfg.partSize && x - WindowStart(cfg, Part(c, p)) == d;
    assert Applied(s, store, chunks, cfg, |Plan(cfg, |chunks|)|)[x] == w[d];
    assert w[d] == store.objects[chunks[c]].content[p * cfg.partSize + d];
  }

  /** A byte of a chunk's tail, which no part covers, keeps its value. */
  lemma TailUntouched(s: seq<bv8>, store: Store, chunks: seq<string>, cfg: Config, c: nat, o: nat)
    requires ValidConfig(cfg) && |chunks| * cfg.chunkSize <= |s|
    requires c < |chunks| && PartsPerChunk(cfg) * cfg.partSize <= o < cfg.chunkSize
    ensures c * cfg.chunkSize + o < |s|
    ensures Filled(s, store, chunks, cfg)[c * cfg.chunkSize + o] == s[c * cfg.chunkSize + o]
  {
    MulLeft(c + 1, |chunks|, cfg.chunkSize);
    assert (c + 1) * cfg.chunkSize == c * cfg.chunkSize + cfg.chunkSize;
    Uncovered(cfg, |chunks|, c, o);
    AppliedOutside(s, store, chunks, cfg, |Plan(cfg, |chunks|)|, c * cfg.chunkSize + o);
  }

  /**
   * The sliding window after `t` tasks were spawned and the first `e` of
   * them were awaited, all successfully: `handles` holds the handles of
   * tasks `e .. t`, oldest first, `active_handles` counts them, and no more
   * than MAX_CONCURRENT_REQUESTS of them are ever in flight.
   */
  predicate Window(rs: seq<Outcome>, e: nat, t: nat, handles: seq<Outcome>, activeHandles: nat, max: nat) {
    && e + |handles| == t <= |rs|
    && handles == rs[e..t]
    && FirstFailure(rs) >= e
    && activeHandles == |handles| == Min(t, max)
  }

  /**
   * The model of `fetch_to_mem` (src/s3.rs:42-106). The ghost results
   * record the outcome of every planned task (`outcomes`, which
   * OutcomesDescribed shows is `Outcomes` of the plan), how many tasks were
   * spawned (always the first `spawned` of the plan, in plan order) and how
   * many handles were awaited (always the oldest ones, in queue order).
   */
  method FetchToMem(store: Store, chunks: seq<string>, cfg: Config, buf: array<bv8>)
    returns (r: Outcome, ghost outcomes: seq<Outcome>, ghost spawned: nat, ghost awaited: nat)
    requires ValidConfig(cfg)
    requires |chunks| * cfg.chunkSize <= buf.Length
    modifies buf
    ensures OutcomesAre(store, chunks, cfg, outcomes, Plan(cfg, |chunks|))
    ensures r == Verdict(outcomes)
    ensures spawned == AdmittedCount(outcomes, cfg.maxConcurrent) <= |outcomes|
    ensures awaited == AwaitedCount(outcomes)
    ensures buf[..] == Applied(old(buf[..]), store, chunks, cfg, spawned)
  {
    ghost var plan := Plan(cfg, |chunks|);
    OutcomesDescribed(store, chunks, cfg, Outcomes(store, chunks, cfg, plan), plan);
    ghost var rs: seq<Outcome> :| OutcomesAre(store, chunks, cfg, rs, plan);
    assert OutcomesAre(store, chunks, cfg, rs, plan);
    var handles: seq<Outcome> := [];
    var activeHandles: nat := 0;
    ghost var e: nat := 0;

    for chunkIdx := 0 to |chunks|
      invariant Window(rs, e, |Plan(cfg, chunkIdx)|, handles, activeHandles, cfg.maxConcurrent)
      invariant buf[..] == Applied(old(buf[..]), store, chunks, cfg, |Plan(cfg, chunkIdx)|)
    {
      var failure: Outcome;
      ghost var t: nat;
      failure, handles, activeHandles, e, t :=
        SpawnObject(store, chunks, cfg, buf, old(buf[..]), plan, rs, chunkIdx, handles, activeHandles, e);
      if failure.Err? {
        r, outcomes, spawned, awaited := failure, rs, t, e + 1;
        return;
      }
    }

    // Await the remaining handles in queue order.
    assert rs[e..] == handles;
    ghost var count: nat;
    r, count := AwaitAll(handles);
    Resumed(rs, e, cfg.maxConcurrent);
    outcomes, spawned, awaited := rs, |plan|, e + count;
    assert AdmittedCount(rs, cfg.maxConcurrent) == |plan|;
  }

  /**
   * The inner loop of `fetch_to_mem` for the object at `chunkIdx`
   * (src/s3.rs:52-97): each part waits for room in the window, awaiting the
   * oldest handle when the window is full, and is then spawned. `r` is the
   * failure of an awaited handle, which ends the run, or `Ok`; `t` counts
   * the tasks spawned so far.
   */
  method SpawnObject(store: Store, chunks: seq<string>, cfg: Config, buf: array<bv8>, ghost orig: seq<bv8>,
                     ghost plan: seq<Part>, ghost rs: seq<Outcome>, chunkIdx: nat,
                     handles0: seq<Outcome>, active0: nat, ghost e0: nat)
    returns (r: Outcome, handles: seq<Outcome>, activeHandles: nat, ghost e: nat, ghost t: nat)
    requires ValidConfig(cfg) && |chunks| * cfg.chunkSize <= |orig| == buf.Length && chunkIdx < |chunks|
    requires plan == Plan(cfg, |chunks|) && OutcomesAre(store, chunks, cfg, rs, plan)
    requires Window(rs, e0, |Plan(cfg, chunkIdx)|, handles0, active0, cfg.maxConcurrent)
    requires buf[..] == Applied(orig, store, chunks, cfg, |Plan(cfg, chunkIdx)|)
    modifies buf
    ensures t <= |plan|
    ensures buf[..] == Applied(orig, store, chunks, cfg, t)
    ensures r.Ok? ==> t == |Plan(cfg, chunkIdx + 1)| && Window(rs, e, t, handles, activeHandles, cfg.maxConcurrent)
    ensures r.Err? ==> r == Verdict(rs) && t == AdmittedCount(rs, cfg.maxConcurrent) && AwaitedCount(rs) == e + 1
  {
    PlanGrows(cfg, chunkIdx);
    PlanPrefix(cfg, chunkIdx + 1, |chunks|);
    var max := cfg.maxConcurrent;
    var partsPerChunk := PartsPerChunk(cfg);
    handles, activeHandles, e, t := handles0, active0, e0, |Plan(cfg, chunkIdx)|;

    for partIdx := 0 to partsPerChunk
      invariant t == |Plan(cfg, chunkIdx)| + partIdx
      invariant Window(rs, e, t, handles, activeHandles, max)
      invariant buf[..] == Applied(orig, store, chunks, cfg, t)
    {
      PlanStep(cfg, |chunks|, chunkIdx, partIdx);
      r, handles, activeHandles, e := Admit(store, chunks, cfg, buf, orig, plan, rs, t, chunkIdx, partIdx, handles, activeHandles, e);
      if r.Err? {
        return;
      }
      t := t + 1;
    }
    r := Ok(());
  }

  /**
   * One pass of the inner loop (src/s3.rs:53-96): when the window is full
   * its oldest handle is awaited first; then task `t`, part `partIdx` of
   * the object at `chunkIdx`, is spawned and its handle pushed. A failed
   * await is the run's result and spawns nothing.
   */
  method Admit(store: Store, chunks: seq<string>, cfg: Config, buf: array<bv8>, ghost orig: seq<bv8>,
               ghost plan: seq<Part>, ghost rs: seq<Outcome>, ghost t: nat, chunkIdx: nat, partIdx: nat,
               handles0: seq<Outcome>, active0: nat, ghost e0: nat)
    returns (r: Outcome, handles: seq<Outcome>, activeHandles: nat, ghost e: nat)
    requires ValidConfig(cfg) && |chunks| * cfg.chunkSize <= |orig| == buf.Length
    requires plan == Plan(cfg, |chunks|) && t < |plan| && plan[t] == Part(chunkIdx, partIdx)
    requires OutcomesAre(store, chunks, cfg, rs, plan)
    requires Window(rs, e0, t, handles0, active0, cfg.maxConcurrent)
    requires buf[..] == Applied(orig, store, chunks, cfg, t)
    modifies buf
    ensures r.Ok? ==> Window(rs, e, t + 1, handles, activeHandles, cfg.maxConcurrent)
    ensures r.Ok? ==> buf[..] == Applied(orig, store, chunks, cfg, t + 1)
    ensures r.Err? ==> r == Verdict(rs) && t == AdmittedCount(rs, cfg.maxConcurrent) && AwaitedCount(rs) == e + 1
    ensures r.Err? ==> buf[..] == old(buf[..])
  {
    var max := cfg.maxConcurrent;
    handles, activeHandles, e := handles0, active0, e0;
    if activeHandles >= max {
      var handle: Outcome;
      handle, handles := AwaitOldest(handles, rs, e, t, max);
      if handle.Err? {
        return handle, handles, activeHandles, e;
      }
      e := e + 1;
      activeHandles := activeHandles - 1;
    }
    var outcome := SpawnTask(store, chunks, cfg, buf, orig, plan, rs, t, chunkIdx, partIdx);
    Pushed(rs, e, t, handles);
    handles := handles + [outcome];
    activeHandles := activeHandles + 1;
    r := Ok(());
  }

  /**
   * `handles.remove(0).await??` (src/s3.rs:64-68): with the window full,
   * the oldest handle, that of task `e`, is taken off the queue and
   * awaited. If it failed, that failure is the run's result, after
   * `e + MAX_CONCURRENT_REQUESTS` spawns and `e + 1` awaits.
   */
  method AwaitOldest(handles: seq<Outcome>, ghost rs: seq<Outcome>, ghost e: nat, ghost t: nat, max: nat)
    returns (r: Outcome, rest: seq<Outcome>)
    requires max > 0 && Window(rs, e, t, handles, |handles|, max) && |handles| >= max
    ensures r == rs[e] && rest == rs[e + 1..t] && e + max == t
    ensures r.Ok? ==> FirstFailure(rs) >= e + 1
    ensures r.Err? ==> r == Verdict(rs) && AwaitedCount(rs) == e + 1 && AdmittedCount(rs, max) == t
  {
    Popped(rs, e, t, handles);
    r, rest := handles[0], handles[1..];
    if r.Err? {
      StopsAt(rs, e, max);
    } else {
      Passed(rs, e);
    }
  }

  /**
   * The task spawned for planned part `t`, part `partIdx` of object
   * `chunkIdx` (src/s3.rs:56-61, 70-96): it is handed its slice's offset and
   * fetches the part into it. Its result is the part's outcome, and the
   * region afterwards is the one the first `t + 1` tasks leave.
   */
  method SpawnTask(store: Store, chunks: seq<string>, cfg: Config, buf: array<bv8>, ghost orig: seq<bv8>,
                   ghost plan: seq<Part>, ghost rs: seq<Outcome>, ghost t: nat, chunkIdx: nat, partIdx: nat)
    returns (outcome: Outcome)
    requires ValidConfig(cfg) && |chunks| * cfg.chunkSize <= |orig| == buf.Length
    requires plan == Plan(cfg, |chunks|) && t < |plan| && plan[t] == Part(chunkIdx, partIdx)
    requires buf[..] == Applied(orig, store, chunks, cfg, t)
    requires OutcomesAre(store, chunks, cfg, rs, plan)
    modifies buf
    ensures outcome == rs[t]
    ensures buf[..] == Applied(orig, store, chunks, cfg, t + 1)
  {
    WindowInRegion(cfg, |chunks|, plan[t]);
    var start := chunkIdx * cfg.chunkSize + partIdx * cfg.partSize;
    assert start == WindowStart(cfg, plan[t]);
    outcome := FetchPart(store, chunks[chunkIdx], cfg, partIdx, buf, start);
    assert OutcomeMatches(store, chunks, cfg, rs, plan, t);
  }

  /**
   * The final `for handle in handles { handle.await??; }` (src/s3.rs:101-103):
   * the handles are awaited oldest first and the first failure ends the loop.
   * `count` is the number of handles awaited.
   */
  method AwaitAll(handles: seq<Outcome>) returns (r: Outcome, ghost count: nat)
    ensures r == Verdict(handles)
    ensures count == AwaitedCount(handles)
  {
    var i := 0;
    while i < |handles|
      invariant i <= |handles| && FirstFailure(handles) >= i
    {
      if handles[i].Err? {
        StopsAt(handles, i, 1);
        return handles[i], i + 1;
      }
      Passed(handles, i);
      i := i + 1;
    }
    return Ok(()), |handles|;
  }
}
