/** Replies of a host to a client, cut into chunks by the host and put together by the client. */
module ChunkedReplies {
  import opened Words
  import opened Fragments

  const CHUNK_SIZE := 1024 * 1024

  /** The tables that are serialized, ideally: a callback id of 32 bits and the reply's bytes. */
  datatype Reply = Reply(callback: nat, payload: seq<u8>)

  function Serialize(reply: Reply): (s: seq<u8>)
    ensures s != []
  {
    [reply.callback / 0x100_0000 % 0x100, reply.callback / 0x1_0000 % 0x100, reply.callback / 0x100 % 0x100, reply.callback % 0x100]
    + reply.payload
  }

  function Parse(s: seq<u8>): Reply {
    if |s| < 4 then Reply(0, []) else Reply((s[0] as nat) * 0x100_0000 + (s[1] as nat) * 0x1_0000 + (s[2] as nat) * 0x100 + s[3] as nat, s[4..])
  }

  lemma ParseSerialize(reply: Reply)
    requires reply.callback < 0x1_0000_0000
    ensures Parse(Serialize(reply)) == reply
  {
    assert Serialize(reply)[4..] == reply.payload;
    FourBytes(reply.callback);
  }

  lemma FourBytes(n: nat)
    requires n < 0x1_0000_0000
    ensures n / 0x100_0000 % 0x100 * 0x100_0000 + n / 0x1_0000 % 0x100 * 0x1_0000 + n / 0x100 % 0x100 * 0x100 + n % 0x100 == n
  {
  }

  datatype Chunk = Chunk(request: nat, callback: nat, total: nat, part: Fragment)

  /** The chunks of a serialized reply. */
  function ChunksOf(request: nat, callback: nat, data: seq<u8>): (c: seq<Chunk>)
    ensures |c| == |CutFrom(data, CHUNK_SIZE, 0)|
  {
    var parts := CutFrom(data, CHUNK_SIZE, 0);
    seq(|parts|, k requires 0 <= k < |parts| => Chunk(request, callback, |data|, parts[k]))
  }

  /** Chunk k: the k-th mebibyte of the data, or what is left of it. */
  predicate ChunkIs(c: Chunk, request: nat, callback: nat, data: seq<u8>, k: nat) {
    && c.request == request && c.callback == callback && c.total == |data| && c.part.offset == 1048576 * k < |data|
    && c.part.bytes == data[1048576 * k..if 1048576 * (k + 1) <= |data| then 1048576 * (k + 1) else |data|]
  }

  lemma ChunksAre(request: nat, callback: nat, data: seq<u8>)
    ensures |ChunksOf(request, callback, data)| == (|data| + 1048575) / 1048576
    ensures forall k :: 0 <= k < |ChunksOf(request, callback, data)| ==> ChunkIs(ChunksOf(request, callback, data)[k], request, callback, data, k)
  {
    CutLength(data, CHUNK_SIZE, 0);
    CutTiles(data, CHUNK_SIZE, 0);
    var chunks := ChunksOf(request, callback, data);
    forall k | 0 <= k < |chunks|
      ensures ChunkIs(chunks[k], request, callback, data, k)
    {
      CutAt(data, CHUNK_SIZE, 0, k);
      TileAt(CutFrom(data, CHUNK_SIZE, 0), data, 0, k);
    }
  }

  /** sendMultipartTuiData's loop. */
  method SendMultipart(request: nat, callback: nat, data: seq<u8>) returns (chunks: seq<Chunk>)
    ensures chunks == ChunksOf(request, callback, data) && |chunks| == (|data| + 1048575) / 1048576
    ensures forall k :: 0 <= k < |chunks| ==> ChunkIs(chunks[k], request, callback, data, k)
  {
    ChunksAre(request, callback, data);
    hide ChunkIs;
    chunks := [];
    var bytesToSend := |data|;
    var dataStartOffset := 0;
    ghost var parts: seq<Fragment> := [];
    while bytesToSend > 0
      invariant 0 <= dataStartOffset <= |data| && bytesToSend == |data| - dataStartOffset
      invariant parts + CutFrom(data, CHUNK_SIZE, dataStartOffset) == CutFrom(data, CHUNK_SIZE, 0)
      invariant |chunks| == |parts| && forall k :: 0 <= k < |chunks| ==> chunks[k] == Chunk(request, callback, |data|, parts[k])
    {
      var size := Min(bytesToSend, CHUNK_SIZE);
      var part := Fragment(dataStartOffset, data[dataStartOffset..dataStartOffset + size]);
      chunks := chunks + [Chunk(request, callback, |data|, part)];
      assert CutFrom(data, CHUNK_SIZE, dataStartOffset) == [part] + CutFrom(data, CHUNK_SIZE, dataStartOffset + size);
      parts := parts + [part];
      dataStartOffset := dataStartOffset + size;
      bytesToSend := bytesToSend - size;
    }
  }

  // ------------------------------------------------------------------ client

  datatype Download = Download(received: nat, data: seq<u8>)

  datatype Answer = Payload(bytes: seq<u8>) | Failure

  datatype Answered = Answered(callback: nat, answer: Answer)

  /** A client's pending callbacks, its downloads under way by request, and the callbacks it made. */
  datatype Client = Client(next: nat, callbacks: set<nat>, downloads: map<nat, Download>, answers: seq<Answered>)

  function DownloadOf(c: Client, chunk: Chunk): Download {
    if chunk.request in c.downloads then c.downloads[chunk.request] else Download(0, seq(chunk.total, _ => 0))
  }

  /** The chunk lies within the buffer it is copied to. */
  predicate Fitting(c: Client, chunk: Chunk) {
    chunk.part.offset + |chunk.part.bytes| <= |DownloadOf(c, chunk).data|
  }

  function WithChunk(c: Client, chunk: Chunk): Download
    requires Fitting(c, chunk)
  {
    var d := DownloadOf(c, chunk);
    Download(d.received + |chunk.part.bytes|, Patch(d.data, chunk.part.offset, chunk.part.bytes))
  }

  /** pollNetEvents for a chunk: stored, and when all bytes are there the callback is made, if it is
      still pending. */
  function ReceiveChunk(c: Client, chunk: Chunk): Client
    requires Fitting(c, chunk)
  {
    var d := WithChunk(c, chunk);
    if d.received < chunk.total then c.(downloads := c.downloads[chunk.request := d])
    else
      var reply := Parse(d.data);
      var done := c.(downloads := c.downloads - {chunk.request});
      if reply.callback in c.callbacks then Call(done, reply.callback, Payload(reply.payload)) else done
  }

  /** A pending callback is made and forgotten. */
  function Call(c: Client, callback: nat, answer: Answer): Client {
    c.(callbacks := c.callbacks - {callback}, answers := c.answers + [Answered(callback, answer)])
  }

  class ClientNet {
    var next: nat
    var callbacks: set<nat>
    var downloads: map<nat, Download>
    var answers: seq<Answered>

    function View(): Client
      reads this
    {
      Client(next, callbacks, downloads, answers)
    }

    constructor ()
      ensures View() == Client(0, {}, map[], [])
    {
      next, callbacks, downloads, answers := 0, {}, map[], [];
    }

    method Receive(chunk: Chunk)
      requires Fitting(View(), chunk)
      modifies this
      ensures View() == ReceiveChunk(old(View()), chunk)
    {
      if chunk.request !in downloads {
        downloads := downloads[chunk.request := Download(0, seq(chunk.total, _ => 0))];
      }
      var download := downloads[chunk.request];
      download := download.(data := Patch(download.data, chunk.part.offset, chunk.part.bytes));
      download := download.(received := download.received + |chunk.part.bytes|);
      downloads := downloads[chunk.request := download];
      if download.received >= chunk.total {
        var reply := Parse(download.data);
        if reply.callback in callbacks {
          answers := answers + [Answered(reply.callback, Payload(reply.payload))];
          callbacks := callbacks - {reply.callback};
        }
        downloads := downloads - {chunk.request};
        assert downloads == old(downloads) - {chunk.request};
      } else {
        assert downloads == old(downloads)[chunk.request := download];
      }
    }
  }

  // -------------------------------------------------------------- reassembly

  function ReceivedBytes(parts: seq<Fragment>, have: seq<bool>): nat
    requires |parts| == |have|
  {
    if parts == [] then 0
    else (if have[0] then |parts[0].bytes| else 0) + ReceivedBytes(parts[1..], have[1..])
  }

  lemma {:induction false} ReceivedMore(parts: seq<Fragment>, have: seq<bool>, k: nat)
    requires |parts| == |have| && k < |have| && !have[k]
    ensures ReceivedBytes(parts, have[k := true]) == ReceivedBytes(parts, have) + |parts[k].bytes|
  {
    if k > 0 {
      ReceivedMore(parts[1..], have[1..], k - 1);
      assert have[k := true][1..] == have[1..][k - 1 := true];
    } else {
      assert have[k := true][1..] == have[1..];
    }
  }

  /** All bytes are counted exactly when no part is missing. */
  lemma {:induction false} ReceivedAll(parts: seq<Fragment>, have: seq<bool>, data: seq<u8>, offset: nat)
    requires |parts| == |have| && Tiles(parts, data, offset)
    ensures offset + ReceivedBytes(parts, have) <= |data|
    ensures offset + ReceivedBytes(parts, have) == |data| <==> Missing(have) == 0
  {
    if parts != [] {
      ReceivedAll(parts[1..], have[1..], data, offset + |parts[0].bytes|);
    }
  }

  lemma {:induction false} ReceivedNothing(parts: seq<Fragment>, have: seq<bool>)
    requires |parts| == |have| && forall k :: 0 <= k < |have| ==> !have[k]
    ensures ReceivedBytes(parts, have) == 0
  {
    if parts != [] {
      ReceivedNothing(parts[1..], have[1..]);
    }
  }

  /** A download that has the parts `have` of `data`; it is kept while some but not all parts are there. */
  predicate Holds(c: Client, request: nat, data: seq<u8>, have: seq<bool>) {
    var parts := CutFrom(data, CHUNK_SIZE, 0);
    && |have| == |parts|
    && if Missing(have) == 0 || Missing(have) == |have| then request !in c.downloads
       else && request in c.downloads && InPlace(parts, have, data, c.downloads[request].data)
            && c.downloads[request].received == ReceivedBytes(parts, have)
  }

  /** Whatever the order of arrival, each new chunk is stored, and the last one, whichever it is, makes
      the callback with what the host serialized. */
  lemma ChunkArrives(c: Client, request: nat, reply: Reply, have: seq<bool>, k: nat)
    requires reply.callback < 0x1_0000_0000 && Holds(c, request, Serialize(reply), have) && k < |have| && !have[k]
    ensures var data := Serialize(reply);
            var chunk := ChunksOf(request, reply.callback, data)[k];
            && Fitting(c, chunk)
            && var c' := ReceiveChunk(c, chunk);
               && Holds(c', request, data, have[k := true])
               && c'.downloads - {request} == c.downloads - {request} && c'.next == c.next
               && if Missing(have) == 1 && reply.callback in c.callbacks
                  then c'.callbacks == c.callbacks - {reply.callback}
                       && c'.answers == c.answers + [Answered(reply.callback, Payload(reply.payload))]
                  else c'.callbacks == c.callbacks && c'.answers == c.answers
  {
    hide Serialize, Parse, Missing, ReceivedBytes, InPlace, CutFrom, Tiles, WithChunk, Fitting;
    var data := Serialize(reply);
    var parts := CutFrom(data, CHUNK_SIZE, 0);
    var chunk := ChunksOf(request, reply.callback, data)[k];
    CutTiles(data, CHUNK_SIZE, 0);
    MissingOneLess(have, k);
    MissingAtMost(have);
    ReceivedMore(parts, have, k);
    ReceivedAll(parts, have[k := true], data, 0);
    StoredInPlace(c, request, data, have, k, chunk);
    if Missing(have) == 1 {
      CompleteIsEqual(parts, have[k := true], data, WithChunk(c, chunk).data);
      ParseSerialize(reply);
    }
  }

  lemma StoredInPlace(c: Client, request: nat, data: seq<u8>, have: seq<bool>, k: nat, chunk: Chunk)
    requires data != [] && Holds(c, request, data, have) && k < |have| && !have[k]
    requires var parts := CutFrom(data, CHUNK_SIZE, 0);
             Tiles(parts, data, 0) && chunk == Chunk(request, chunk.callback, |data|, parts[k])
    ensures var parts := CutFrom(data, CHUNK_SIZE, 0);
            && Fitting(c, chunk)
            && InPlace(parts, have[k := true], data, WithChunk(c, chunk).data)
            && WithChunk(c, chunk).received == ReceivedBytes(parts, have) + |parts[k].bytes|
  {
    var parts := CutFrom(data, CHUNK_SIZE, 0);
    MissingNone(have);
    if Missing(have) == |have| {
      NoneThere(have);
      ReceivedNothing(parts, have);
    }
    PatchKeeps(parts, have, data, DownloadOf(c, chunk).data, k);
  }

  lemma {:induction false} NoneThere(have: seq<bool>)
    requires Missing(have) == |have|
    ensures forall k :: 0 <= k < |have| ==> !have[k]
  {
    if have != [] {
      MissingAtMost(have[1..]);
      NoneThere(have[1..]);
      assert forall k :: 1 <= k < |have| ==> have[k] == have[1..][k - 1];
    }
  }

  lemma {:induction false} MissingAtMost(have: seq<bool>)
    ensures Missing(have) <= |have|
  {
    if have != [] {
      MissingAtMost(have[1..]);
    }
  }
}
