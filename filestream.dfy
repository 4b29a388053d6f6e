/**
 * The untagged buffer of the file-tailing relay: one sequence of lines with an
 * append cursor; a flush joins the whole pending prefix with newlines, hands it
 * to the send function once and drops that prefix only if the send succeeded.
 */
module FileStream {
  import opened Wrappers
  import opened Bytes

  /** Default growth chunk (the package variable `bSize`). */
  const DefaultChunk: nat := 4096

  /** The injected send function: a body in, nil or an error out. */
  type SendFunc = seq<byte> -> Option<Error>

  class Buffer {
    var data: seq<seq<byte>>
    var ref: nat
    const chunk: nat

    /** The cursor stays within the storage and growth always adds room. */
    ghost predicate Valid()
      reads this
    {
      chunk > 0 && ref <= |data|
    }

    /** The pending lines, oldest first. */
    ghost function Pending(): seq<seq<byte>>
      reads this
      requires Valid()
    {
      data[..ref]
    }

    /** NewBuffer(): `chunk` empty slots, nothing pending. */
    constructor (chunk: nat)
      requires chunk > 0
      ensures Valid() && this.chunk == chunk
      ensures data == seq(chunk, _ => []) && ref == 0
      ensures Pending() == []
    {
      this.data := seq(chunk, _ => []);
      this.ref := 0;
      this.chunk := chunk;
    }

    /** NewBuffer() as the relay itself calls it, with `bSize` left at its default. */
    constructor Default()
      ensures Valid() && chunk == DefaultChunk
      ensures data == seq(DefaultChunk, _ => []) && ref == 0
      ensures Pending() == []
    {
      this.data := seq(DefaultChunk, _ => []);
      this.ref := 0;
      this.chunk := DefaultChunk;
    }

    /** Writes the line at the cursor, growing the storage by one chunk first when it is full. */
    method Add(line: seq<byte>)
      requires Valid()
      modifies this
      ensures Valid()
      ensures ref == old(ref) + 1
      ensures data == (if old(ref) >= old(|data|) then old(data) + seq(chunk, _ => []) else old(data))[old(ref) := line]
      ensures |data| == if old(ref) >= old(|data|) then old(|data|) + chunk else old(|data|)
      ensures Pending() == old(Pending()) + [line]
    {
      if ref >= |data| {
        data := data + seq(chunk, _ => []);
      }
      data := data[ref := line];
      ref := ref + 1;
      assert data[..ref] == old(data[..ref]) + [line];
    }

    /** The snapshot taken under the lock: a copy of the first `ref` lines. */
    method Snapshot() returns (buf: seq<seq<byte>>)
      requires Valid()
      ensures buf == Pending()
    {
      buf := data[..ref];
    }

    /** Drops the first `k` lines after a successful send; later lines move to the front. */
    method Commit(k: nat)
      requires Valid() && k <= ref
      modifies this
      ensures Valid()
      ensures data == old(data)[k..] && ref == old(ref) - k
      ensures Pending() == old(Pending())[k..]
    {
      data := data[k..];
      ref := ref - k;
    }

    /** Send(sendFunc) with no producer running: one call with every pending line, drop them iff it succeeded. */
    method Send(sendFunc: SendFunc) returns (err: Option<Error>, body: seq<byte>)
      requires Valid()
      modifies this
      ensures Valid()
      ensures body == Join(old(Pending())) && err == sendFunc(body)
      ensures err.None? ==> data == old(data)[old(ref)..] && ref == 0
      ensures err.Some? ==> data == old(data) && ref == old(ref)
    {
      var buf := Snapshot();
      body := Join(buf);
      err := sendFunc(body);
      if err.None? {
        Commit(|buf|);
      }
    }

    /** Send(sendFunc) while the file watcher keeps appending `arrivals` between the snapshot and the drop. */
    method SendWithArrivals(sendFunc: SendFunc, arrivals: seq<seq<byte>>) returns (err: Option<Error>, body: seq<byte>)
      requires Valid()
      modifies this
      ensures Valid()
      ensures body == Join(old(Pending())) && err == sendFunc(body)
      ensures err.None? ==> Pending() == arrivals
      ensures err.Some? ==> Pending() == old(Pending()) + arrivals
    {
      var buf := Snapshot();
      body := Join(buf);
      var i := 0;
      while i < |arrivals|
        invariant 0 <= i <= |arrivals|
        invariant Valid()
        invariant Pending() == buf + arrivals[..i]
      {
        Add(arrivals[i]);
        assert arrivals[..i + 1] == arrivals[..i] + [arrivals[i]];
        i := i + 1;
      }
      assert arrivals[..i] == arrivals;
      err := sendFunc(body);
      if err.None? {
        Commit(|buf|);
        assert (buf + arrivals)[|buf|..] == arrivals;
      }
    }
  }
}
