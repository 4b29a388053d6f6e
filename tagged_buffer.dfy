/**
 * The tagged accumulation buffer: records are kept as two parallel sequences
 * `data` and `names` with an append cursor `ref`; a flush groups the pending
 * records by name, uploads one newline-joined packet per name and drops the
 * flushed prefix only when every upload succeeded.
 */
module TaggedBuffer {
  import opened Wrappers
  import opened Bytes

  type Name = string

  /** One pending record: a payload and the name it is delivered under. */
  datatype Record = Record(payload: seq<byte>, name: Name)

  /** The injected uploader: a payload and a name in, nil or an error out. */
  type Uploader = (seq<byte>, Name) -> Option<Error>

  /** One uploader invocation as seen by the flush: what was sent and what came back. */
  datatype Call = Call(payload: seq<byte>, name: Name, result: Option<Error>)

  // ---------------------------------------------------------------------------
  // Specification of the grouping step
  // ---------------------------------------------------------------------------

  /** Pairs the parallel slices `data[i]`, `names[i]` into records. */
  function Records(data: seq<seq<byte>>, names: seq<Name>): (r: seq<Record>)
    requires |data| == |names|
    ensures |r| == |data|
  {
    seq(|data|, i requires 0 <= i < |data| => Record(data[i], names[i]))
  }

  /** The distinct names present in `recs`. */
  function Names(recs: seq<Record>): (r: set<Name>)
  {
    set r | r in recs :: r.name
  }

  /** The payloads of the records named `n`, in arrival order. */
  function Group(recs: seq<Record>, n: Name): (g: seq<seq<byte>>)
  {
    if recs == [] then []
    else (if recs[0].name == n then [recs[0].payload] else []) + Group(recs[1..], n)
  }

  /** The packet for every name: that name's payloads joined by single newlines. */
  function Packets(recs: seq<Record>): (m: map<Name, seq<byte>>)
  {
    map n | n in Names(recs) :: Join(Group(recs, n))
  }

  /** The last error in the call log (the error Send reports), nil if every call succeeded. */
  function LastError(calls: seq<Call>): (err: Option<Error>)
  {
    if calls == [] then None
    else if calls[|calls| - 1].result.Some? then calls[|calls| - 1].result
    else LastError(calls[..|calls| - 1])
  }

  /** `calls` invokes the uploader exactly once for every packet, with that packet's name and body. */
  ghost predicate OneCallPerPacket(calls: seq<Call>, packets: map<Name, seq<byte>>, upload: Uploader)
  {
    && CallsMatch(calls, packets, upload)
    && DistinctNames(calls)
    && (forall n :: n in packets ==> exists i :: 0 <= i < |calls| && calls[i].name == n)
  }

  // ---------------------------------------------------------------------------
  // Properties of the grouping
  // ---------------------------------------------------------------------------

  /** Grouping distributes over concatenation: earlier records stay ahead of later ones. */
  lemma {:induction false} GroupAppend(a: seq<Record>, b: seq<Record>, n: Name)
    ensures Group(a + b, n) == Group(a, n) + Group(b, n)
  {
    if a != [] {
      assert (a + b)[0] == a[0];
      assert (a + b)[1..] == a[1..] + b;
      GroupAppend(a[1..], b, n);
    } else {
      assert a + b == b;
    }
  }

  /** A name has a non-empty group exactly when some record carries it. */
  lemma {:induction false} GroupNonEmpty(recs: seq<Record>, n: Name)
    ensures Group(recs, n) != [] <==> n in Names(recs)
  {
    if recs != [] {
      GroupNonEmpty(recs[1..], n);
      assert Names(recs) == {recs[0].name} + Names(recs[1..]) by {
        assert recs == [recs[0]] + recs[1..];
      }
    }
  }

  /** A payload is in the group of `n` exactly when a record `(payload, n)` is pending. */
  lemma {:induction false} GroupMembers(recs: seq<Record>, n: Name, x: seq<byte>)
    ensures x in Group(recs, n) <==> Record(x, n) in recs
  {
    if recs != [] {
      GroupMembers(recs[1..], n, x);
      assert recs == [recs[0]] + recs[1..];
    }
  }

  /** The payloads of `recs`, in order, whatever their names. */
  function Payloads(recs: seq<Record>): (r: seq<seq<byte>>)
    ensures |r| == |recs|
  {
    seq(|recs|, i requires 0 <= i < |recs| => recs[i].payload)
  }

  /** With a single name in the batch, its group is every payload in order. */
  lemma {:induction false} SingleNameGroup(recs: seq<Record>, n: Name)
    requires forall i :: 0 <= i < |recs| ==> recs[i].name == n
    ensures Group(recs, n) == Payloads(recs)
  {
    if recs != [] {
      SingleNameGroup(recs[1..], n);
      assert Payloads(recs) == [recs[0].payload] + Payloads(recs[1..]);
    }
  }

  /** A batch under one name is sent as one packet: the untagged buffer's newline join of all payloads. */
  lemma SingleNamePackets(recs: seq<Record>, n: Name)
    requires recs != [] && forall i :: 0 <= i < |recs| ==> recs[i].name == n
    ensures Packets(recs) == map[n := Join(Payloads(recs))]
  {
    SingleNameGroup(recs, n);
    assert recs[0] in recs;
    assert Names(recs) == {n};
  }

  /** The names after one more record: the old names plus that record's. */
  lemma NamesSnoc(recs: seq<Record>, r: Record)
    ensures Names(recs + [r]) == Names(recs) + {r.name}
  {
  }

  /** One more record extends its own name's group by its payload and leaves the others alone. */
  lemma {:induction false} GroupSnoc(recs: seq<Record>, r: Record, n: Name)
    ensures Group(recs + [r], n) == Group(recs, n) + (if r.name == n then [r.payload] else [])
  {
    GroupAppend(recs, [r], n);
    assert [r][1..] == [];
  }

  /** Adding one record updates only its own name's packet, by the incremental join of buffer.go. */
  lemma {:induction false} PacketsSnoc(recs: seq<Record>, r: Record)
    ensures Packets(recs + [r]) ==
      Packets(recs)[r.name := if r.name in Packets(recs) then Join([Packets(recs)[r.name], r.payload]) else r.payload]
  {
    var before, after := Packets(recs), Packets(recs + [r]);
    var expected := before[r.name := if r.name in before then Join([before[r.name], r.payload]) else r.payload];
    NamesSnoc(recs, r);
    assert after.Keys == expected.Keys;
    forall n | n in after.Keys
      ensures after[n] == expected[n]
    {
      assert after[n] == Join(Group(recs + [r], n));
      GroupSnoc(recs, r, n);
      if n == r.name {
        GroupNonEmpty(recs, n);
        if n in before {
          assert before[n] == Join(Group(recs, n));
          assert Join([before[n], r.payload]) == before[n] + [Newline] + r.payload;
          JoinSnoc(Group(recs, n), r.payload);
          assert expected[n] == Join([before[n], r.payload]);
        } else {
          assert Group(recs, n) == [];
          assert Group(recs + [r], n) == [r.payload];
          assert expected[n] == r.payload;
        }
      } else {
        assert Group(recs, n) + [] == Group(recs, n);
        assert n in before;
        assert expected[n] == before[n] == Join(Group(recs, n));
      }
    }
  }

  /** The error Send reports is nil exactly when every call succeeded, and otherwise one of the calls' errors. */
  lemma {:induction false} LastErrorIsAFailure(calls: seq<Call>)
    ensures LastError(calls).None? <==> forall i :: 0 <= i < |calls| ==> calls[i].result.None?
    ensures LastError(calls).Some? ==> exists i :: 0 <= i < |calls| && calls[i].result == LastError(calls)
  {
    if calls != [] && calls[|calls| - 1].result.None? {
      var init := calls[..|calls| - 1];
      LastErrorIsAFailure(init);
      assert forall i :: 0 <= i < |init| ==> init[i] == calls[i];
    }
  }

  /** Worked example: names A, A, B with payloads "1", "2", "3" give packets "1\n2" for A and "3" for B. */
  lemma GroupingExample()
    ensures Packets([Record([49], "A"), Record([50], "A"), Record([51], "B")]) == map["A" := [49, 10, 50], "B" := [51]]
  {
    var r1, r2, r3 := Record([49], "A"), Record([50], "A"), Record([51], "B");
    var recs := [r1, r2, r3];
    NamesSnoc([r1], r2);
    NamesSnoc([r1, r2], r3);
    assert [r1] + [r2] == [r1, r2] && [r1, r2] + [r3] == recs;
    assert Names([r1]) == {"A"};
    assert Names(recs) == {"A", "B"};
    assert recs[1..] == [r2, r3] && recs[1..][1..] == [r3] && [r3][1..] == [];
    assert "A" != "B" by { assert "A"[0] != "B"[0]; }
    assert Group([], "A") == [] && Group([], "B") == [];
    assert r3.name == "B" && r1.name == "A" && r2.name == "A";
    assert Group([r3], "A") == [] && Group([r3], "B") == [[51]];
    assert Group([r2, r3], "A") == [[50]] && Group([r2, r3], "B") == [[51]];
    assert Group(recs, "A") == [[49]] + [[50]];
    assert Group(recs, "B") == [[51]];
    assert Join([[49], [50]]) == [49, 10, 50];
  }

  // ---------------------------------------------------------------------------
  // The two loops of Send
  // ---------------------------------------------------------------------------

  /** The grouping loop of Send: builds the packet map from the snapshot slices. */
  method BuildPackets(buf: seq<seq<byte>>, nbuf: seq<Name>) returns (packets: map<Name, seq<byte>>)
    requires |buf| == |nbuf|
    ensures packets == Packets(Records(buf, nbuf))
  {
    packets := map[];
    var i := 0;
    assert Records(buf[..0], nbuf[..0]) == [];
    while i < |nbuf|
      invariant 0 <= i <= |nbuf|
      invariant packets == Packets(Records(buf[..i], nbuf[..i]))
    {
      var n := nbuf[i];
      if n in packets {
        packets := packets[n := Join([packets[n], buf[i]])];
      } else {
        packets := packets[n := buf[i]];
      }
      assert Records(buf[..i + 1], nbuf[..i + 1]) == Records(buf[..i], nbuf[..i]) + [Record(buf[i], n)];
      PacketsSnoc(Records(buf[..i], nbuf[..i]), Record(buf[i], n));
      i := i + 1;
    }
    assert buf[..i] == buf && nbuf[..i] == nbuf;
  }

  /** The names the calls in `calls` were made for. */
  function SentNames(calls: seq<Call>): (r: set<Name>)
  {
    set c | c in calls :: c.name
  }

  /** Every call in `calls` is for a packet, carries that packet's body and the uploader's answer to it. */
  ghost predicate CallsMatch(calls: seq<Call>, packets: map<Name, seq<byte>>, upload: Uploader)
  {
    forall i :: 0 <= i < |calls| ==>
      calls[i].name in packets && calls[i].payload == packets[calls[i].name]
      && calls[i].result == upload(calls[i].payload, calls[i].name)
  }

  /** No name is called twice. */
  ghost predicate DistinctNames(calls: seq<Call>)
  {
    forall i, j :: 0 <= i < j < |calls| ==> calls[i].name != calls[j].name
  }

  /** One more call adds exactly its name to the names called. */
  lemma SentNamesSnoc(calls: seq<Call>, c: Call)
    ensures SentNames(calls + [c]) == SentNames(calls) + {c.name}
  {
  }

  /** Calls that match the packets, never repeat a name and cover every name are one call per packet. */
  lemma CoveringCalls(calls: seq<Call>, packets: map<Name, seq<byte>>, upload: Uploader)
    requires CallsMatch(calls, packets, upload) && DistinctNames(calls) && SentNames(calls) == packets.Keys
    ensures OneCallPerPacket(calls, packets, upload)
    ensures LastError(calls).None? <==> forall n :: n in packets ==> upload(packets[n], n).None?
  {
    LastErrorIsAFailure(calls);
    forall n | n in packets ensures exists i :: 0 <= i < |calls| && calls[i].name == n {
      assert n in SentNames(calls);
      var c :| c in calls && c.name == n;
      var i :| 0 <= i < |calls| && calls[i] == c;
    }
  }

  /** Loop invariant of the upload loop: the calls so far are one per name no longer `remaining`. */
  ghost predicate UploadProgress(calls: seq<Call>, remaining: set<Name>, packets: map<Name, seq<byte>>, upload: Uploader)
  {
    && remaining <= packets.Keys
    && |calls| + |remaining| == |packets|
    && CallsMatch(calls, packets, upload)
    && DistinctNames(calls)
    && SentNames(calls) == packets.Keys - remaining
  }

  /** One iteration of the upload loop keeps its invariant. */
  lemma UploadStep(calls: seq<Call>, remaining: set<Name>, packets: map<Name, seq<byte>>, upload: Uploader, n: Name)
    requires UploadProgress(calls, remaining, packets, upload) && n in remaining
    ensures UploadProgress(calls + [Call(packets[n], n, upload(packets[n], n))], remaining - {n}, packets, upload)
  {
    var call := Call(packets[n], n, upload(packets[n], n));
    SentNamesSnoc(calls, call);
    var next := calls + [call];
    forall i, j | 0 <= i < j < |next| ensures next[i].name != next[j].name {
      if j == |calls| {
        assert next[i] in calls;
      }
    }
  }

  /** The upload loop of Send: one call per packet, in an arbitrary order; the last failure wins. */
  method UploadAll(packets: map<Name, seq<byte>>, upload: Uploader) returns (err: Option<Error>, calls: seq<Call>)
    ensures OneCallPerPacket(calls, packets, upload)
    ensures SentNames(calls) == packets.Keys
    ensures |calls| == |packets|
    ensures err == LastError(calls)
    ensures err.None? <==> forall n :: n in packets ==> upload(packets[n], n).None?
  {
    err, calls := None, [];
    var remaining := packets.Keys;
    while remaining != {}
      invariant UploadProgress(calls, remaining, packets, upload)
      invariant err == LastError(calls)
      decreases |remaining|
    {
      var n :| n in remaining;
      var thisErr := upload(packets[n], n);
      UploadStep(calls, remaining, packets, upload, n);
      assert (calls + [Call(packets[n], n, thisErr)])[..|calls|] == calls;
      calls := calls + [Call(packets[n], n, thisErr)];
      if thisErr.Some? {
        err := thisErr;
      }
      remaining := remaining - {n};
    }
    CoveringCalls(calls, packets, upload);
  }

  // ---------------------------------------------------------------------------
  // The buffer object
  // ---------------------------------------------------------------------------

  /** `s` grown by one chunk of `size` empty slots when the cursor has reached its end. */
  function Reserve<T>(s: seq<T>, ref: nat, size: nat, empty: T): (r: seq<T>)
    ensures |r| == if ref >= |s| then |s| + size else |s|
    ensures r[..|s|] == s
  {
    if ref >= |s| then s + seq(size, _ => empty) else s
  }

  class Buffer {
    var data: seq<seq<byte>>
    var names: seq<Name>
    var ref: nat
    const size: nat

    /** The cursor stays within the storage, the two slices stay parallel, growth always adds room. */
    ghost predicate Valid()
      reads this
    {
      size > 0 && ref <= |data| && |data| == |names|
    }

    /** The pending records, oldest first: the populated prefix of both slices. */
    ghost function Pending(): seq<Record>
      reads this
      requires Valid()
    {
      Records(data[..ref], names[..ref])
    }

    /** NewBuffer(size): `size` empty slots in each slice, nothing pending. */
    constructor (size: nat)
      requires size > 0
      ensures Valid() && this.size == size
      ensures data == seq(size, _ => []) && names == seq(size, _ => "") && ref == 0
      ensures Pending() == []
    {
      this.data := seq(size, _ => []);
      this.names := seq(size, _ => "");
      this.ref := 0;
      this.size := size;
    }

    /** Writes the record at the cursor, growing both slices by one chunk first when they are full. */
    method Add(payload: seq<byte>, name: Name)
      requires Valid()
      modifies this
      ensures Valid()
      ensures ref == old(ref) + 1
      ensures data == Reserve(old(data), old(ref), size, [])[old(ref) := payload]
      ensures names == Reserve(old(names), old(ref), size, "")[old(ref) := name]
      ensures |data| == if old(ref) >= old(|data|) then old(|data|) + size else old(|data|)
      ensures Pending() == old(Pending()) + [Record(payload, name)]
    {
      if ref >= |data| {
        data := data + seq(size, _ => []);
        names := names + seq(size, _ => "");
      }
      data := data[ref := payload];
      names := names[ref := name];
      ref := ref + 1;
      assert data[..ref] == old(data[..ref]) + [payload];
      assert names[..ref] == old(names[..ref]) + [name];
    }

    /** The snapshot taken under the lock: copies of the first `ref` entries of both slices. */
    method Snapshot() returns (buf: seq<seq<byte>>, nbuf: seq<Name>)
      requires Valid()
      ensures |buf| == |nbuf| == ref
      ensures Records(buf, nbuf) == Pending()
    {
      buf, nbuf := data[..ref], names[..ref];
    }

    /** Drops the first `k` records after a fully successful flush; later records move to the front. */
    method Commit(k: nat)
      requires Valid() && k <= ref
      modifies this
      ensures Valid()
      ensures data == old(data)[k..] && names == old(names)[k..] && ref == old(ref) - k
      ensures Pending() == old(Pending())[k..]
    {
      data := data[k..];
      names := names[k..];
      ref := ref - k;
    }

    /** Send(u) with no producer running: snapshot, group, upload every group, drop the batch iff all succeeded. */
    method Send(upload: Uploader) returns (err: Option<Error>, calls: seq<Call>)
      requires Valid()
      modifies this
      ensures Valid()
      ensures OneCallPerPacket(calls, Packets(old(Pending())), upload)
      ensures SentNames(calls) == Names(old(Pending()))
      ensures old(ref) == 0 ==> calls == [] && err.None? && ref == 0
      ensures err == LastError(calls)
      ensures err.None? <==> forall i :: 0 <= i < |calls| ==> calls[i].result.None?
      ensures err.None? ==> data == old(data)[old(ref)..] && names == old(names)[old(ref)..] && ref == 0
      ensures err.Some? ==> data == old(data) && names == old(names) && ref == old(ref)
    {
      var buf, nbuf := Snapshot();
      var packets := BuildPackets(buf, nbuf);
      err, calls := UploadAll(packets, upload);
      LastErrorIsAFailure(calls);
      assert packets.Keys == Names(Pending());
      if err.None? {
        Commit(|buf|);
      }
    }

    /**
     * Send(u) while producers keep appending: `arrivals` are the records other
     * goroutines add between the snapshot and the final prefix drop.
     */
    method SendWithArrivals(upload: Uploader, arrivals: seq<Record>) returns (err: Option<Error>, calls: seq<Call>)
      requires Valid()
      modifies this
      ensures Valid()
      ensures OneCallPerPacket(calls, Packets(old(Pending())), upload)
      ensures err == LastError(calls)
      ensures err.None? ==> Pending() == arrivals
      ensures err.Some? ==> Pending() == old(Pending()) + arrivals
    {
      var buf, nbuf := Snapshot();
      ghost var batch := Pending();
      var packets := BuildPackets(buf, nbuf);
      var i := 0;
      while i < |arrivals|
        invariant 0 <= i <= |arrivals|
        invariant Valid()
        invariant Pending() == batch + arrivals[..i]
      {
        Add(arrivals[i].payload, arrivals[i].name);
        assert arrivals[..i + 1] == arrivals[..i] + [arrivals[i]];
        i := i + 1;
      }
      assert arrivals[..i] == arrivals;
      err, calls := UploadAll(packets, upload);
      if err.None? {
        Commit(|buf|);
        assert (batch + arrivals)[|batch|..] == arrivals;
      }
    }
  }
}
