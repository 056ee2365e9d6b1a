/**
 * One spawned task of `fetch_to_mem` (src/s3.rs:70-95): a ranged GET of one
 * part of one object, then the `while bytes_read < CHUNK_SIZE` loop that
 * reads the body into the part's slice until a read returns 0.
 */
module Fetch {
  import opened Wrappers
  import opened RangeHeader
  import opened Layout
  import opened ObjectStore

  /**
   * What the part's `get_object` request receives: FetchPart sends the range
   * as header text, and the store reads back the same range (ParseRender).
   */
  function Response(store: Store, key: string, cfg: Config, partIdx: nat): Result<Body, FetchError>
    requires ValidConfig(cfg)
  {
    Serve(store, key, RangeOf(cfg, partIdx))
  }

  /**
   * The bytes the task copies into its slice: the body, up to PART_SIZE of
   * it. They are always a piece of the object starting at the part's first
   * requested offset.
   */
  function PartBytes(store: Store, key: string, cfg: Config, partIdx: nat): (w: seq<bv8>)
    requires ValidConfig(cfg)
    ensures |w| <= cfg.partSize
    ensures w != [] ==>
              && key in store.objects
              && RangeOf(cfg, partIdx).first + |w| <= |store.objects[key].content|
              && w == store.objects[key].content[RangeOf(cfg, partIdx).first .. RangeOf(cfg, partIdx).first + |w|]
  {
    match Response(store, key, cfg, partIdx)
    case Err(_) => []
    case Ok(body) => body.data[..Min(|body.data|, cfg.partSize)]
  }

  /**
   * The task's result: request errors propagate (`send().await?`), a
   * broken body fails only if the loop reads up to its end, and a body that
   * ends cleanly is `Ok` however short it is. So a reset fails the task
   * only when it left the slice incomplete, and a task that succeeds with a
   * short slice has copied the object up to its end.
   */
  function PartOutcome(store: Store, key: string, cfg: Config, partIdx: nat): (r: Result<(), FetchError>)
    requires ValidConfig(cfg)
    ensures r.Ok? ==> key in store.objects && RangeOf(cfg, partIdx).first < |store.objects[key].content|
    ensures r == Err(ConnectionReset) ==> |PartBytes(store, key, cfg, partIdx)| < cfg.partSize
    ensures r.Ok? && |PartBytes(store, key, cfg, partIdx)| < cfg.partSize ==>
              RangeOf(cfg, partIdx).first + |PartBytes(store, key, cfg, partIdx)| == |store.objects[key].content|
  {
    match Response(store, key, cfg, partIdx)
    case Err(e) => Err(e)
    case Ok(body) => if body.broken && |body.data| < cfg.partSize then Err(ConnectionReset) else Ok(())
  }

  /** A part whose bytes all exist, and whose transfer does not break early, arrives whole and succeeds. */
  lemma FullPartArrives(store: Store, key: string, cfg: Config, partIdx: nat)
    requires ValidConfig(cfg) && key in store.objects
    requires (partIdx + 1) * cfg.partSize <= |store.objects[key].content|
    requires partIdx * cfg.partSize in store.objects[key].breaks ==>
               store.objects[key].breaks[partIdx * cfg.partSize] >= cfg.partSize
    ensures PartOutcome(store, key, cfg, partIdx) == Ok(())
    ensures PartBytes(store, key, cfg, partIdx) ==
            store.objects[key].content[partIdx * cfg.partSize .. (partIdx + 1) * cfg.partSize]
  {
  }

  /**
   * An object that ends inside the part gives a short body; the task still
   * succeeds, with fewer than PART_SIZE bytes written and the rest of the
   * slice untouched.
   */
  lemma EarlyEndIsNotAnError(store: Store, key: string, cfg: Config, partIdx: nat)
    requires ValidConfig(cfg) && key in store.objects
    requires partIdx * cfg.partSize < |store.objects[key].content| < (partIdx + 1) * cfg.partSize
    requires partIdx * cfg.partSize in store.objects[key].breaks ==>
               partIdx * cfg.partSize + store.objects[key].breaks[partIdx * cfg.partSize] >= |store.objects[key].content|
    ensures PartOutcome(store, key, cfg, partIdx) == Ok(())
    ensures PartBytes(store, key, cfg, partIdx) == store.objects[key].content[partIdx * cfg.partSize..]
    ensures |PartBytes(store, key, cfg, partIdx)| < cfg.partSize
  {
  }

  /** A transfer that breaks after `n` bytes of the part fails, after writing those bytes. */
  lemma ResetInsidePartFails(store: Store, key: string, cfg: Config, partIdx: nat, n: nat)
    requires ValidConfig(cfg) && key in store.objects
    requires partIdx * cfg.partSize in store.objects[key].breaks
    requires store.objects[key].breaks[partIdx * cfg.partSize] == n
    requires partIdx * cfg.partSize + n < Min((partIdx + 1) * cfg.partSize, |store.objects[key].content|)
    ensures PartOutcome(store, key, cfg, partIdx) == Err(ConnectionReset)
    ensures PartBytes(store, key, cfg, partIdx) == store.objects[key].content[partIdx * cfg.partSize .. partIdx * cfg.partSize + n]
  {
  }

  /**
   * Parts are fetched by independent requests: a part's outcome and bytes
   * depend only on the object's content and on how that part's own request
   * transfers, not on any other part.
   */
  lemma PartsIndependent(store: Store, other: Store, key: string, cfg: Config, partIdx: nat)
    requires ValidConfig(cfg)
    requires key in store.objects <==> key in other.objects
    requires key in store.objects ==>
               var o, o' := store.objects[key], other.objects[key];
               var s := partIdx * cfg.partSize;
               && o.content == o'.content
               && (s in o.breaks <==> s in o'.breaks)
               && (s in o.breaks ==> o.breaks[s] == o'.breaks[s])
    ensures PartOutcome(store, key, cfg, partIdx) == PartOutcome(other, key, cfg, partIdx)
    ensures PartBytes(store, key, cfg, partIdx) == PartBytes(other, key, cfg, partIdx)
  {
  }

  /** A failed part does not make a later part of the same object fail. */
  lemma OnlyTheBrokenPartFails()
    ensures var cfg := Config(8, 4, 1);
            var store := Store(map["k" := StoredObject(seq(8, i => 0 as bv8), map[0 := 1])], 1);
            && ValidConfig(cfg)
            && PartOutcome(store, "k", cfg, 0) == Err(ConnectionReset)
            && PartOutcome(store, "k", cfg, 1) == Ok(())
  {
    var cfg := Config(8, 4, 1);
    var o := StoredObject(seq(8, i => 0 as bv8), map[0 := 1]);
    assert Breaks(o, RangeOf(cfg, 0));
    assert !Breaks(o, RangeOf(cfg, 1));
  }

  /** A request for a missing key, or for a part past the object's end, fails and writes nothing. */
  lemma RequestErrors(store: Store, key: string, cfg: Config, partIdx: nat)
    requires ValidConfig(cfg)
    requires key !in store.objects || |store.objects[key].content| <= partIdx * cfg.partSize
    ensures PartBytes(store, key, cfg, partIdx) == []
    ensures PartOutcome(store, key, cfg, partIdx) ==
            if key !in store.objects then Err(NoSuchKey(key))
            else Err(RangeNotSatisfiable(RangeOf(cfg, partIdx)))
  {
  }

  /**
   * The task body. `start` is the slice's offset in the region. After the
   * request (whose failure `?` returns at once) the body is read into the
   * slice by ReadBody.
   */
  method FetchPart(store: Store, key: string, cfg: Config, partIdx: nat, buf: array<bv8>, start: nat)
    returns (r: Result<(), FetchError>)
    requires ValidConfig(cfg) && partIdx < PartsPerChunk(cfg)
    requires start + cfg.partSize <= buf.Length
    modifies buf
    ensures r == PartOutcome(store, key, cfg, partIdx)
    ensures buf[..] == Paste(old(buf[..]), start, PartBytes(store, key, cfg, partIdx))
  {
    var range := RangeOf(cfg, partIdx);
    var header := Render(range);
    var response := GetObject(store, key, header);
    RenderedRangeServed(store, key, range);
    if response.Err? {
      assert buf[..] == Paste(old(buf[..]), start, []);
      return Err(response.error);
    }
    assert cfg.partSize <= cfg.chunkSize by {
      MulLeft(1, PartsPerChunk(cfg), cfg.partSize);
    }
    var reader := new BodyReader(response.value, store.frame);
    r := ReadBody(reader, cfg, buf, start);
  }

  /**
   * The `while bytes_read < CHUNK_SIZE` loop (src/s3.rs:85-92). The guard
   * compares against CHUNK_SIZE, not PART_SIZE, so a full slice ends the
   * loop through a read into its empty rest returning 0. The reader's
   * contract keeps every write inside `buf[start .. start + PART_SIZE]`.
   */
  method ReadBody(reader: BodyReader, cfg: Config, buf: array<bv8>, start: nat)
    returns (r: Result<(), FetchError>)
    requires reader.Valid() && reader.pos == 0
    requires 0 < cfg.partSize <= cfg.chunkSize && start + cfg.partSize <= buf.Length
    modifies reader, buf
    ensures r == if reader.broken && |reader.data| < cfg.partSize then Err(ConnectionReset) else Ok(())
    ensures buf[..] == Paste(old(buf[..]), start, reader.data[..Min(|reader.data|, cfg.partSize)])
  {
    var bytesRead: nat := 0;
    while bytesRead < cfg.chunkSize
      invariant reader.Valid() && bytesRead == reader.pos && bytesRead <= cfg.partSize
      invariant buf[..] == Paste(old(buf[..]), start, reader.data[..bytesRead])
      decreases cfg.chunkSize - bytesRead
    {
      var n := reader.Read(buf, start + bytesRead, start + cfg.partSize);
      if n.Err? {
        return Err(n.error);
      }
      if n.value == 0 {
        break;
      }
      PasteExtend(old(buf[..]), start, reader.data[..bytesRead], reader.data[bytesRead..bytesRead + n.value]);
      assert reader.data[..bytesRead] + reader.data[bytesRead..bytesRead + n.value] == reader.data[..bytesRead + n.value];
      bytesRead := bytesRead + n.value;
    }
    return Ok(());
  }
}
