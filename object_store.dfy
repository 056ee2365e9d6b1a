/**
 * A stand-in for the object store that `get_object` talks to, and for the
 * response body that `into_async_read` turns into a byte reader. The store
 * is a value: a map from key to object, plus the largest number of bytes a
 * single `read` call hands over. Transfer failures are recorded per
 * request, so that every outcome of a transfer is a function of the store
 * and each request fails or succeeds on its own.
 */
module ObjectStore {
  import opened Wrappers
  import opened RangeHeader
  import opened Layout

  type Pos = n: nat | n > 0 witness 1

  /** The failures a part's task can end with (the join error of a task is folded in). */
  datatype FetchError =
    | NoSuchKey(key: string)              // the bucket holds no object under the key
    | MalformedRange(header: string)      // the Range header is not a valid `bytes=S-E`
    | RangeNotSatisfiable(range: ByteRange) // the range starts at or past the object's end
    | ConnectionReset                     // the body stream failed before it ended

  /**
   * An object's bytes, and the requests whose transfer breaks:
   * `breaks[s] == n` makes the body of a request for a range starting at
   * offset `s` fail after delivering `n` bytes, if that is fewer than the
   * range holds. Requests starting elsewhere are not affected.
   */
  datatype StoredObject = StoredObject(content: seq<bv8>, breaks: map<nat, nat>)

  datatype Store = Store(objects: map<string, StoredObject>, frame: Pos)

  /** A response body: the bytes it delivers, and whether it then fails instead of ending. */
  datatype Body = Body(data: seq<bv8>, broken: bool)

  function Min(a: int, b: int): int {
    if a <= b then a else b
  }

  /** The transfer of range `r` of `o` breaks before it has delivered everything it should. */
  predicate Breaks(o: StoredObject, r: ByteRange) {
    r.first in o.breaks && r.first + o.breaks[r.first] < Min(r.last + 1, |o.content|)
  }

  /**
   * The body for a satisfiable range: the requested bytes, clipped to the
   * object's length as section 14.1.2 of RFC 9110 says, and cut short where
   * the request's transfer breaks, if it does.
   */
  function BodyFor(o: StoredObject, r: ByteRange): (b: Body)
    requires r.first <= r.last && r.first < |o.content|
    ensures r.first + |b.data| <= Min(r.last + 1, |o.content|)
    ensures b.data == o.content[r.first .. r.first + |b.data|]
    ensures b.broken <==> Breaks(o, r)
    ensures |b.data| == if b.broken then o.breaks[r.first] else Min(r.last + 1, |o.content|) - r.first
  {
    var end := Min(r.last + 1, |o.content|);
    if Breaks(o, r)
    then Body(o.content[r.first .. r.first + o.breaks[r.first]], true)
    else Body(o.content[r.first .. end], false)
  }

  /**
   * The response to a request for the valid range `rg` of `key`: a missing
   * key is an error, so is a range that starts at or past the object's end
   * (status 416 of RFC 9110); otherwise the body.
   */
  function Serve(store: Store, key: string, rg: ByteRange): (r: Result<Body, FetchError>)
    requires rg.first <= rg.last
    ensures r.Ok? <==> key in store.objects && rg.first < |store.objects[key].content|
    ensures r.Ok? ==> r.value == BodyFor(store.objects[key], rg)
    ensures r.Err? ==> r.error == if key in store.objects then RangeNotSatisfiable(rg) else NoSuchKey(key)
  {
    if key !in store.objects then Err(NoSuchKey(key))
    else if rg.first < |store.objects[key].content| then Ok(BodyFor(store.objects[key], rg))
    else Err(RangeNotSatisfiable(rg))
  }

  /**
   * `get_object().key(key).range(header).send()`: the store reads the
   * header and serves the range it names; a header it cannot read is an
   * error.
   */
  function GetObject(store: Store, key: string, header: string): (r: Result<Body, FetchError>)
    ensures Parse(header).Some? ==> r == Serve(store, key, Parse(header).value)
    ensures Parse(header).None? ==> r.Err? && (key in store.objects ==> r.error == MalformedRange(header))
  {
    if key !in store.objects then Err(NoSuchKey(key))
    else match Parse(header)
      case None => Err(MalformedRange(header))
      case Some(rg) => Serve(store, key, rg)
  }

  /**
   * A request whose header is the text `format!` writes for a valid range
   * is served exactly as that range, whatever the store holds.
   */
  lemma RenderedRangeServed(store: Store, key: string, rg: ByteRange)
    requires rg.first <= rg.last
    ensures GetObject(store, key, Render(rg)) == Serve(store, key, rg)
  {
    ParseRender(rg);
  }

  /** The reader `into_async_read` makes of a body; `pos` counts the bytes handed over. */
  class BodyReader {
    const data: seq<bv8>
    const broken: bool
    const frame: Pos
    var pos: nat

    ghost predicate Valid()
      reads this
    {
      pos <= |data|
    }

    constructor (body: Body, frame: Pos)
      ensures Valid() && pos == 0
      ensures data == body.data && broken == body.broken && this.frame == frame
    {
      data, broken, this.frame := body.data, body.broken, frame;
      pos := 0;
    }

    /**
     * `read(&mut dst[lo..hi])`: hands over some of the next bytes of the
     * body, at most `hi - lo` of them, into `dst[lo..lo + n]` and leaves the
     * rest of `dst` alone. It returns 0 only for an empty destination or at
     * the end of a body that ends cleanly; at the end of a broken body it
     * fails. (This reader hands over at most `frame` bytes a call; callers
     * rely only on the bounds.)
     */
    method Read(dst: array<bv8>, lo: nat, hi: nat) returns (r: Result<nat, FetchError>)
      requires Valid() && lo <= hi <= dst.Length
      modifies this, dst
      ensures Valid()
      ensures r.Err? <==> lo < hi && old(pos) == |data| && broken
      ensures r.Err? ==> r.error == ConnectionReset && pos == old(pos) && dst[..] == old(dst[..])
      ensures r.Ok? ==> r.value <= Min(hi - lo, |data| - old(pos)) && pos == old(pos) + r.value
      ensures r.Ok? ==> (r.value == 0 <==> lo == hi || old(pos) == |data|)
      ensures r.Ok? ==> dst[..] == Paste(old(dst[..]), lo, data[old(pos)..pos])
    {
      if lo == hi {
        return Ok(0);
      }
      if pos == |data| {
        if broken {
          return Err(ConnectionReset);
        }
        return Ok(0);
      }
      var n := Min(Min(hi - lo, |data| - pos), frame);
      forall k | lo <= k < lo + n {
        dst[k] := data[pos + (k - lo)];
      }
      pos := pos + n;
      assert dst[..] == Paste(old(dst[..]), lo, data[old(pos)..pos]);
      return Ok(n);
    }
  }
}
