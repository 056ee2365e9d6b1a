/**
 * Where each part of each object lands in the shared region, and which
 * byte range of its object it asks for (src/s3.rs:6-8, 51-61, 75-79).
 * The three build-time constants are parameters; `Deployed` holds the
 * values the repository is built with.
 */
module Layout {
  import opened RangeHeader

  /** CHUNK_SIZE, PART_SIZE and MAX_CONCURRENT_REQUESTS. */
  datatype Config = Config(chunkSize: nat, partSize: nat, maxConcurrent: nat)

  /** 1 << 30 bytes per object, 50 << 20 bytes per part, up to 256 requests in flight. */
  const Deployed := Config(0x4000_0000, 50 * 0x10_0000, 256)

  /**
   * `CHUNK_SIZE / PART_SIZE` needs a non-zero part size, and the sliding
   * window needs room for one handle: with a cap of 0 the first admission
   * would call `handles.remove(0)` on an empty vector.
   */
  predicate ValidConfig(cfg: Config) {
    cfg.partSize > 0 && cfg.maxConcurrent > 0
  }

  /** The number of parts of one object, `CHUNK_SIZE / PART_SIZE` (src/s3.rs:52). */
  function PartsPerChunk(cfg: Config): (k: nat)
    requires ValidConfig(cfg)
    ensures k * cfg.partSize <= cfg.chunkSize < (k + 1) * cfg.partSize
  {
    cfg.chunkSize / cfg.partSize
  }

  /** One task: part `part` of the object at position `chunk` of the key list. */
  datatype Part = Part(chunk: nat, part: nat)

  /** The tasks `fetch_to_mem` creates for `n` objects. */
  predicate InPlan(cfg: Config, n: nat, p: Part)
    requires ValidConfig(cfg)
  {
    p.chunk < n && p.part < PartsPerChunk(cfg)
  }

  /** The offset handed to `mem_ptr.add` (src/s3.rs:58). */
  function WindowStart(cfg: Config, p: Part): nat {
    p.chunk * cfg.chunkSize + p.part * cfg.partSize
  }

  /** Offset `x` is one of the PART_SIZE bytes of `p`'s destination slice. */
  predicate InWindow(cfg: Config, p: Part, x: int) {
    WindowStart(cfg, p) <= x < WindowStart(cfg, p) + cfg.partSize
  }

  /** The two destination slices share no byte. */
  predicate Disjoint(cfg: Config, p: Part, q: Part) {
    WindowStart(cfg, p) + cfg.partSize <= WindowStart(cfg, q) ||
    WindowStart(cfg, q) + cfg.partSize <= WindowStart(cfg, p)
  }

  lemma MulLeft(a: nat, b: nat, k: nat)
    requires a <= b
    ensures a * k <= b * k
  {
  }

  /** A part's slice lies inside its own object's CHUNK_SIZE bytes. */
  lemma WindowInChunk(cfg: Config, p: Part)
    requires ValidConfig(cfg) && p.part < PartsPerChunk(cfg)
    ensures p.chunk * cfg.chunkSize <= WindowStart(cfg, p)
    ensures WindowStart(cfg, p) + cfg.partSize <= (p.chunk + 1) * cfg.chunkSize
  {
    MulLeft(p.part + 1, PartsPerChunk(cfg), cfg.partSize);
  }

  /** So every slice lies inside a region of `n * CHUNK_SIZE` bytes (src/main.rs:29). */
  lemma WindowInRegion(cfg: Config, n: nat, p: Part)
    requires ValidConfig(cfg) && InPlan(cfg, n, p)
    ensures WindowStart(cfg, p) + cfg.partSize <= n * cfg.chunkSize
  {
    WindowInChunk(cfg, p);
    MulLeft(p.chunk + 1, n, cfg.chunkSize);
  }

  /**
   * Two tasks' slices are disjoint exactly when the tasks differ: the
   * condition under which the unsynchronised writes through
   * `from_raw_parts_mut` never touch the same byte (src/s3.rs:56-61).
   */
  lemma WindowsDisjoint(cfg: Config, p: Part, q: Part)
    requires ValidConfig(cfg) && p.part < PartsPerChunk(cfg) && q.part < PartsPerChunk(cfg)
    ensures Disjoint(cfg, p, q) <==> p != q
  {
    WindowInChunk(cfg, p);
    WindowInChunk(cfg, q);
    if p.chunk < q.chunk {
      MulLeft(p.chunk + 1, q.chunk, cfg.chunkSize);
    } else if q.chunk < p.chunk {
      MulLeft(q.chunk + 1, p.chunk, cfg.chunkSize);
    } else if p.part < q.part {
      MulLeft(p.part + 1, q.part, cfg.partSize);
    } else if q.part < p.part {
      MulLeft(q.part + 1, p.part, cfg.partSize);
    }
  }

  /**
   * The parts of one object cover its first `PartsPerChunk * PART_SIZE`
   * bytes and nothing after them: part sizes that do not divide CHUNK_SIZE
   * leave the tail of every object unfetched.
   */
  lemma ChunkCoverage(cfg: Config, c: nat, x: int)
    requires ValidConfig(cfg)
    requires c * cfg.chunkSize <= x < (c + 1) * cfg.chunkSize
    ensures (exists p: nat :: p < PartsPerChunk(cfg) && InWindow(cfg, Part(c, p), x))
        <==> x - c * cfg.chunkSize < PartsPerChunk(cfg) * cfg.partSize
  {
    var base := c * cfg.chunkSize;
    var o: nat := x - base;
    OffsetCoverage(cfg, o);
    if o < PartsPerChunk(cfg) * cfg.partSize {
      var p: nat :| p < PartsPerChunk(cfg) && p * cfg.partSize <= o < p * cfg.partSize + cfg.partSize;
      assert InWindow(cfg, Part(c, p), x);
    } else {
      forall p: nat | p < PartsPerChunk(cfg)
        ensures !InWindow(cfg, Part(c, p), x)
      {
        assert !(p * cfg.partSize <= o < p * cfg.partSize + cfg.partSize);
      }
    }
  }

  /** The part of span `ps` that offset `o` falls in: `o / ps`, found by counting. */
  lemma Quotient(o: nat, ps: nat) returns (p: nat)
    requires ps > 0
    ensures p * ps <= o < p * ps + ps
    decreases o
  {
    if o < ps {
      p := 0;
    } else {
      var q := Quotient(o - ps, ps);
      p := q + 1;
      assert p * ps == q * ps + ps;
    }
  }

  /** The offset-within-object form of ChunkCoverage. */
  lemma OffsetCoverage(cfg: Config, o: nat)
    requires ValidConfig(cfg)
    ensures (exists p: nat :: p < PartsPerChunk(cfg) && p * cfg.partSize <= o < p * cfg.partSize + cfg.partSize)
        <==> o < PartsPerChunk(cfg) * cfg.partSize
  {
    var k, ps := PartsPerChunk(cfg), cfg.partSize;
    if o < k * ps {
      var p := Quotient(o, ps);
      if p >= k {
        MulLeft(k, p, ps);
      }
    } else {
      forall p: nat | p < k
        ensures !(p * ps <= o < p * ps + ps)
      {
        MulLeft(p + 1, k, ps);
      }
    }
  }

  /**
   * With the deployed constants an object has 20 parts covering 1000 MiB,
   * and its last 24 MiB are never fetched.
   */
  lemma DeployedLayout()
    ensures ValidConfig(Deployed)
    ensures PartsPerChunk(Deployed) == 20
    ensures PartsPerChunk(Deployed) * Deployed.partSize == 1000 * 0x10_0000
    ensures Deployed.chunkSize - PartsPerChunk(Deployed) * Deployed.partSize == 24 * 0x10_0000
  {
  }

  /**
   * The `bytes=S-E` range part `partIdx` asks for (src/s3.rs:75-79): exactly
   * PART_SIZE bytes, starting where the part's slice starts relative to its
   * object's base offset.
   */
  function RangeOf(cfg: Config, partIdx: nat): (r: ByteRange)
    requires ValidConfig(cfg)
    ensures r.first <= r.last && r.last - r.first + 1 == cfg.partSize
  {
    ByteRange(partIdx * cfg.partSize, (partIdx + 1) * cfg.partSize - 1)
  }

  /** The range a task asks for is its slice, shifted down by its object's base offset. */
  lemma RangeMatchesWindow(cfg: Config, p: Part)
    requires ValidConfig(cfg)
    ensures RangeOf(cfg, p.part).first + p.chunk * cfg.chunkSize == WindowStart(cfg, p)
    ensures RangeOf(cfg, p.part).last + 1 + p.chunk * cfg.chunkSize == WindowStart(cfg, p) + cfg.partSize
  {
  }

  /** The tasks of object `c`, in ascending part order (the inner loop, src/s3.rs:52). */
  function ChunkParts(c: nat, k: nat): seq<Part> {
    seq(k, i requires 0 <= i < k => Part(c, i))
  }

  /**
   * Every task of `n` objects in the order the nested loops of src/s3.rs:51-52
   * create them: `n * PartsPerChunk` tasks, each one of the `n` objects' parts.
   */
  function Plan(cfg: Config, n: nat): (s: seq<Part>)
    requires ValidConfig(cfg)
    ensures forall i :: 0 <= i < |s| ==> InPlan(cfg, n, s[i])
  {
    if n == 0 then [] else Plan(cfg, n - 1) + ChunkParts(n - 1, PartsPerChunk(cfg))
  }

  /** Admission order: object-major, then ascending part index. */
  predicate Before(p: Part, q: Part) {
    p.chunk < q.chunk || (p.chunk == q.chunk && p.part < q.part)
  }

  /** The plan is strictly increasing in admission order, so no task occurs twice. */
  lemma {:induction false} PlanOrdered(cfg: Config, n: nat)
    requires ValidConfig(cfg)
    ensures forall i, j :: 0 <= i < j < |Plan(cfg, n)| ==> Before(Plan(cfg, n)[i], Plan(cfg, n)[j])
  {
    if n > 0 {
      PlanOrdered(cfg, n - 1);
    }
  }

  /** Every part of every object is in the plan, and nothing else is. */
  lemma {:induction false} PlanComplete(cfg: Config, n: nat, p: Part)
    requires ValidConfig(cfg)
    ensures p in Plan(cfg, n) <==> InPlan(cfg, n, p)
  {
    if n > 0 {
      PlanComplete(cfg, n - 1, p);
      if p.chunk == n - 1 && p.part < PartsPerChunk(cfg) {
        assert ChunkParts(n - 1, PartsPerChunk(cfg))[p.part] == p;
      }
    }
  }

  /** `n` objects make `n * PartsPerChunk` tasks. */
  lemma {:induction false} PlanLength(cfg: Config, n: nat)
    requires ValidConfig(cfg)
    ensures |Plan(cfg, n)| == n * PartsPerChunk(cfg)
  {
    if n > 0 {
      PlanLength(cfg, n - 1);
      PlanGrows(cfg, n - 1);
    }
  }

  /** Each object adds PartsPerChunk tasks to the plan. */
  lemma PlanGrows(cfg: Config, c: nat)
    requires ValidConfig(cfg)
    ensures |Plan(cfg, c + 1)| == |Plan(cfg, c)| + PartsPerChunk(cfg)
  {
    assert Plan(cfg, c + 1) == Plan(cfg, c) + ChunkParts(c, PartsPerChunk(cfg));
  }

  /** The plan of `c` objects is a prefix of the plan of `n >= c` objects. */
  lemma {:induction false} PlanPrefix(cfg: Config, c: nat, n: nat)
    requires ValidConfig(cfg) && c <= n
    ensures Plan(cfg, c) <= Plan(cfg, n)
  {
    if c < n {
      PlanPrefix(cfg, c, n - 1);
    }
  }

  /**
   * When the loops are at object `c`, part `p`, the tasks created so far are
   * the first `|Plan(cfg, c)| + p` of the plan, and `Part(c, p)` is the next one.
   */
  lemma PlanStep(cfg: Config, n: nat, c: nat, p: nat)
    requires ValidConfig(cfg) && c < n && p < PartsPerChunk(cfg)
    ensures |Plan(cfg, c)| + p < |Plan(cfg, n)| && Plan(cfg, n)[|Plan(cfg, c)| + p] == Part(c, p)
  {
    PlanPrefix(cfg, c + 1, n);
    assert Plan(cfg, c + 1) == Plan(cfg, c) + ChunkParts(c, PartsPerChunk(cfg));
    assert Plan(cfg, c + 1)[|Plan(cfg, c)| + p] == Part(c, p);
  }

  /** `s` with `w` written over it from offset `at` — one slice's bytes copied into the region. */
  function Paste<T>(s: seq<T>, at: nat, w: seq<T>): (t: seq<T>)
    requires at + |w| <= |s|
    ensures |t| == |s|
    ensures forall i :: 0 <= i < |s| ==> t[i] == if at <= i < at + |w| then w[i - at] else s[i]
  {
    seq(|s|, i requires 0 <= i < |s| => if at <= i < at + |w| then w[i - at] else s[i])
  }

  /** Writing `w` and then `v` right after it is writing `w + v`. */
  lemma PasteExtend<T>(s: seq<T>, at: nat, w: seq<T>, v: seq<T>)
    requires at + |w| + |v| <= |s|
    ensures Paste(Paste(s, at, w), at + |w|, v) == Paste(s, at, w + v)
  {
    var l, r := Paste(Paste(s, at, w), at + |w|, v), Paste(s, at, w + v);
    assert forall i :: 0 <= i < |s| ==> l[i] == r[i];
  }
}
