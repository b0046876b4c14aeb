/** Lossless captures travel as chunks: the camera endpoint splits the encoded bytes, the recorder
    reassembles them per capture, in bounded maps that evict their first entry. This module is about
    the traffic of one sensor. */
module ChunkTransport {

  type Byte = bv8

  /** Capture identifiers by their position in the maps' string order; 0 is the empty identifier. */
  type CaptureId = nat

  const CHUNK_SIZE: nat := 262144
  const LIMIT: nat := 64

  datatype Chunk = Chunk(
    captureId: CaptureId, sensorId: string, stamp: int, format: string, index: nat, count: nat, data: seq<Byte>)

  datatype Image = Image(stamp: int, format: string, data: seq<Byte>)

  // ---------- the publisher ----------

  function ChunkCount(size: nat): nat {
    (size + CHUNK_SIZE - 1) / CHUNK_SIZE
  }

  /** The bytes of one chunk. */
  function Slice(data: seq<Byte>, index: nat): seq<Byte>
    requires index < ChunkCount(|data|)
  {
    var begin := index * CHUNK_SIZE;
    var remaining := |data| - begin;
    data[begin..begin + if CHUNK_SIZE < remaining then CHUNK_SIZE else remaining]
  }

  function ChunkOf(id: CaptureId, sensorId: string, image: Image, index: nat): Chunk
    requires index < ChunkCount(|image.data|)
  {
    Chunk(id, sensorId, image.stamp, image.format, index, ChunkCount(|image.data|), Slice(image.data, index))
  }

  method Publish(id: CaptureId, sensorId: string, image: Image) returns (chunks: seq<Chunk>)
    ensures |chunks| == ChunkCount(|image.data|)
    ensures forall i :: 0 <= i < |chunks| ==> chunks[i] == ChunkOf(id, sensorId, image, i)
    ensures Join(seq(|chunks|, i requires 0 <= i < |chunks| => chunks[i].data)) == image.data
  {
    chunks := [];
    var count := (|image.data| + CHUNK_SIZE - 1) / CHUNK_SIZE;
    for index := 0 to count
      invariant |chunks| == index
      invariant forall i :: 0 <= i < index ==> chunks[i] == ChunkOf(id, sensorId, image, i)
    {
      var begin := index * CHUNK_SIZE;
      var remaining := |image.data| - begin;
      var length := if CHUNK_SIZE < remaining then CHUNK_SIZE else remaining;
      chunks := chunks + [Chunk(id, sensorId, image.stamp, image.format, index, count, image.data[begin..begin + length])];
    }
    SlicesJoin(image.data, seq(|chunks|, i requires 0 <= i < |chunks| => chunks[i].data));
  }

  function Join(parts: seq<seq<Byte>>): seq<Byte> {
    if parts == [] then [] else Join(parts[..|parts| - 1]) + parts[|parts| - 1]
  }

  lemma {:induction false} SlicesJoinUpTo(data: seq<Byte>, parts: seq<seq<Byte>>)
    requires |parts| <= ChunkCount(|data|)
    requires forall i :: 0 <= i < |parts| ==> parts[i] == Slice(data, i)
    ensures Join(parts) == data[..if |parts| * CHUNK_SIZE < |data| then |parts| * CHUNK_SIZE else |data|]
  {
    if parts != [] {
      var n := |parts| - 1;
      SlicesJoinUpTo(data, parts[..n]);
      assert n * CHUNK_SIZE < |data|;
    }
  }

  /** All slices in index order are the whole image. */
  lemma SlicesJoin(data: seq<Byte>, parts: seq<seq<Byte>>)
    requires |parts| == ChunkCount(|data|)
    requires forall i :: 0 <= i < |parts| ==> parts[i] == Slice(data, i)
    ensures Join(parts) == data
  {
    SlicesJoinUpTo(data, parts);
    assert |parts| * CHUNK_SIZE >= |data|;
  }

  // ---------- the receiver ----------

  datatype Assembly = Assembly(
    stamp: int, format: string, count: nat, received: seq<bool>, chunks: seq<seq<Byte>>, receivedCount: nat)

  datatype Store = Store(assemblies: map<CaptureId, Assembly>, images: map<CaptureId, Image>)

  const Empty: Store := Store(map[], map[])

  predicate Sized(a: Assembly) {
    a.count > 0 && |a.received| == a.count && |a.chunks| == a.count
  }

  predicate WellFormed(s: Store) {
    forall id :: id in s.assemblies ==> Sized(s.assemblies[id])
  }

  ghost predicate IsFirst(keys: set<CaptureId>, first: CaptureId) {
    first in keys && forall k :: k in keys ==> first <= k
  }

  lemma {:induction false} FirstExists(keys: set<CaptureId>)
    requires keys != {}
    ensures exists first :: IsFirst(keys, first)
    decreases |keys|
  {
    var k :| k in keys;
    var rest := keys - {k};
    assert forall x :: x in keys ==> x == k || x in rest;
    if rest == {} {
      assert IsFirst(keys, k);
    } else {
      FirstExists(rest);
      var other :| IsFirst(rest, other);
      assert IsFirst(keys, k) || IsFirst(keys, other);
    }
  }

  /** What `begin()` of a non-empty map finds. */
  ghost function First(keys: set<CaptureId>): (first: CaptureId)
    requires keys != {}
    ensures IsFirst(keys, first)
  {
    FirstExists(keys);
    var first :| IsFirst(keys, first);
    first
  }

  /** Erases first entries until there is room for one more. */
  ghost function Trim<V>(m: map<CaptureId, V>): (r: map<CaptureId, V>)
    ensures |r| < LIMIT && r.Keys <= m.Keys && forall k :: k in r ==> r[k] == m[k]
    ensures |m| < LIMIT ==> r == m
    decreases |m|
  {
    if |m| < LIMIT then m
    else
      assert |m.Keys| == |m|;
      var first := First(m.Keys);
      var smaller := m - {first};
      assert smaller.Keys == m.Keys - {first};
      assert |smaller.Keys| == |m.Keys| - 1;
      Trim(smaller)
  }

  ghost function Room<V>(m: map<CaptureId, V>, id: CaptureId): map<CaptureId, V> {
    if id in m then m else Trim(m)
  }

  predicate Acceptable(chunk: Chunk, sensorId: string) {
    chunk.count != 0 && chunk.index < chunk.count && chunk.captureId != 0 && chunk.sensorId == sensorId
  }

  function Fresh(chunk: Chunk): Assembly {
    Assembly(chunk.stamp, chunk.format, chunk.count, seq(chunk.count, _ => false), seq(chunk.count, _ => []), 0)
  }

  function Put(a: Assembly, chunk: Chunk): Assembly
    requires Sized(a) && chunk.index < a.count
  {
    if a.received[chunk.index] then a
    else a.(chunks := a.chunks[chunk.index := chunk.data], received := a.received[chunk.index := true],
            receivedCount := a.receivedCount + 1)
  }

  function Started(room: map<CaptureId, Assembly>, chunk: Chunk): Assembly {
    if chunk.captureId in room then room[chunk.captureId] else Fresh(chunk)
  }

  /** Keeps an incomplete assembly, turns a complete one into the image of its capture. */
  ghost function Finish(s: Store, room: map<CaptureId, Assembly>, id: CaptureId, a: Assembly): Store {
    if a.receivedCount != a.count then s.(assemblies := room[id := a])
    else Store(room - {id}, Room(s.images, id)[id := Image(a.stamp, a.format, Join(a.chunks))])
  }

  ghost function Accept(s: Store, sensorId: string, chunk: Chunk): Store
    requires WellFormed(s)
  {
    if !Acceptable(chunk, sensorId) then s
    else
      var id := chunk.captureId;
      var room := Room(s.assemblies, id);
      var started := Started(room, chunk);
      if started.count != chunk.count || started.stamp != chunk.stamp then s.(assemblies := room - {id})
      else Finish(s, room, id, Put(started, chunk))
  }

  lemma FinishKeepsSizes(s: Store, room: map<CaptureId, Assembly>, id: CaptureId, a: Assembly)
    requires WellFormed(s.(assemblies := room)) && Sized(a)
    ensures WellFormed(Finish(s, room, id, a))
  {
  }

  lemma AcceptKeepsSizes(s: Store, sensorId: string, chunk: Chunk)
    requires WellFormed(s)
    ensures WellFormed(Accept(s, sensorId, chunk))
  {
    if Acceptable(chunk, sensorId) {
      var room := Room(s.assemblies, chunk.captureId);
      var started := Started(room, chunk);
      if started.count == chunk.count {
        FinishKeepsSizes(s, room, chunk.captureId, Put(started, chunk));
      }
    }
  }

  /** Any arrival order, with repetition and loss: only the sequence of arrivals matters. */
  ghost function Run(s: Store, sensorId: string, chunks: seq<Chunk>): Store
    requires WellFormed(s)
    decreases chunks
  {
    if chunks == [] then s
    else
      AcceptKeepsSizes(s, sensorId, chunks[0]);
      Run(Accept(s, sensorId, chunks[0]), sensorId, chunks[1..])
  }

  // ---------- both maps stay bounded, whatever arrives ----------

  lemma InsertCount<V>(m: map<CaptureId, V>, id: CaptureId, v: V)
    ensures |m[id := v]| == if id in m then |m| else |m| + 1
  {
    assert m[id := v].Keys == m.Keys + {id};
    assert |m.Keys| == |m| && |m[id := v].Keys| == |m[id := v]|;
  }

  lemma RemoveCount<V>(m: map<CaptureId, V>, id: CaptureId)
    ensures |m - {id}| <= |m|
  {
    assert (m - {id}).Keys <= m.Keys;
    var rest := m.Keys - {id};
    assert (m - {id}).Keys == rest && |rest| <= |m.Keys|;
  }

  lemma FinishKeepsBounds(s: Store, room: map<CaptureId, Assembly>, id: CaptureId, a: Assembly)
    requires |s.images| <= LIMIT && |room| <= LIMIT && (id in room || |room| < LIMIT)
    ensures |Finish(s, room, id, a).assemblies| <= LIMIT && |Finish(s, room, id, a).images| <= LIMIT
  {
    if a.receivedCount != a.count {
      InsertCount(room, id, a);
    } else {
      RemoveCount(room, id);
      InsertCount(Room(s.images, id), id, Image(a.stamp, a.format, Join(a.chunks)));
    }
  }

  lemma AcceptKeepsBounds(s: Store, sensorId: string, chunk: Chunk)
    requires WellFormed(s) && |s.assemblies| <= LIMIT && |s.images| <= LIMIT
    ensures |Accept(s, sensorId, chunk).assemblies| <= LIMIT && |Accept(s, sensorId, chunk).images| <= LIMIT
  {
    if Acceptable(chunk, sensorId) {
      var room := Room(s.assemblies, chunk.captureId);
      var started := Started(room, chunk);
      if started.count != chunk.count || started.stamp != chunk.stamp {
        RemoveCount(room, chunk.captureId);
      } else {
        FinishKeepsBounds(s, room, chunk.captureId, Put(started, chunk));
      }
    }
  }

  /** At most 64 assemblies and 64 images per sensor, for every traffic, well-formed or not. */
  lemma {:induction false} BoundsHoldForever(s: Store, sensorId: string, chunks: seq<Chunk>)
    requires WellFormed(s) && |s.assemblies| <= LIMIT && |s.images| <= LIMIT
    ensures |Run(s, sensorId, chunks).assemblies| <= LIMIT && |Run(s, sensorId, chunks).images| <= LIMIT
    decreases chunks
  {
    if chunks != [] {
      AcceptKeepsSizes(s, sensorId, chunks[0]);
      AcceptKeepsBounds(s, sensorId, chunks[0]);
      BoundsHoldForever(Accept(s, sensorId, chunks[0]), sensorId, chunks[1..]);
    }
  }

  // ---------- counting flags ----------

  function CountTrue(flags: seq<bool>): nat {
    if flags == [] then 0 else (if flags[0] then 1 else 0) + CountTrue(flags[1..])
  }

  lemma {:induction false} CountSet(flags: seq<bool>, i: nat)
    requires i < |flags| && !flags[i]
    ensures CountTrue(flags[i := true]) == CountTrue(flags) + 1
  {
    if i == 0 {
      assert flags[i := true][1..] == flags[1..];
    } else {
      assert flags[i := true][1..] == flags[1..][i - 1 := true];
      CountSet(flags[1..], i - 1);
    }
  }

  lemma {:induction false} CountFull(flags: seq<bool>)
    ensures CountTrue(flags) <= |flags|
    ensures CountTrue(flags) == |flags| <==> forall i :: 0 <= i < |flags| ==> flags[i]
  {
    if flags != [] {
      CountFull(flags[1..]);
      assert (forall i :: 0 <= i < |flags| ==> flags[i]) <==>
             flags[0] && forall i :: 0 <= i < |flags[1..]| ==> flags[1..][i];
    }
  }

  lemma {:induction false} CountNone(flags: seq<bool>)
    requires forall i :: 0 <= i < |flags| ==> !flags[i]
    ensures CountTrue(flags) == 0
  {
    if flags != [] {
      CountNone(flags[1..]);
    }
  }

  // ---------- what one chunk touches ----------

  /** Making room drops first entries only, and no more than needed. */
  lemma {:induction false} TrimDropsFirst<V>(m: map<CaptureId, V>)
    ensures forall x, y :: x in m && x !in Trim(m) && y in Trim(m) ==> x < y
    ensures |Trim(m)| == if |m| < LIMIT then |m| else LIMIT - 1
    decreases |m|
  {
    if |m| >= LIMIT {
      assert |m.Keys| == |m|;
      var first := First(m.Keys);
      var smaller := m - {first};
      assert smaller.Keys == m.Keys - {first} && |smaller.Keys| == |smaller|;
      TrimDropsFirst(smaller);
    }
  }

  /** Other captures stay as they are, but for those dropped because this one is new in a full map: they come
      before everything that stays. */
  ghost predicate KeepsOthers<V>(m: map<CaptureId, V>, n: map<CaptureId, V>, id: CaptureId) {
    && (forall x :: x in n && x != id ==> x in m && n[x] == m[x])
    && (forall x :: x in m && x != id && x !in n ==>
          id !in m && |m| >= LIMIT && forall y :: y in n && y != id ==> x < y)
  }

  lemma RoomKeepsOthers<V>(m: map<CaptureId, V>, id: CaptureId, v: V)
    ensures KeepsOthers(m, m, id) && KeepsOthers(m, Room(m, id), id)
    ensures KeepsOthers(m, Room(m, id)[id := v], id) && KeepsOthers(m, Room(m, id) - {id}, id)
  {
    TrimDropsFirst(m);
  }

  /** A chunk touches its own capture; of the others at most the first ones are dropped, from the assemblies when
      it starts a new one in a full map, and from the images when it completes one. */
  lemma OthersAreKept(s: Store, sensorId: string, chunk: Chunk)
    requires WellFormed(s)
    ensures KeepsOthers(s.assemblies, Accept(s, sensorId, chunk).assemblies, chunk.captureId)
    ensures KeepsOthers(s.images, Accept(s, sensorId, chunk).images, chunk.captureId)
  {
    var id := chunk.captureId;
    var a := if Acceptable(chunk, sensorId) then Started(Room(s.assemblies, id), chunk) else Fresh(chunk);
    var put := if chunk.index < a.count && Sized(a) then Put(a, chunk) else a;
    RoomKeepsOthers(s.assemblies, id, put);
    RoomKeepsOthers(s.images, id, Image(put.stamp, put.format, Join(put.chunks)));
  }

  /** A chunk of another frame or another count than its assembly ends that assembly, and stores nothing; a chunk
      of another sensor, without a capture or out of range changes nothing. */
  lemma MisfitsAreDropped(s: Store, sensorId: string, chunk: Chunk)
    requires WellFormed(s)
    ensures var t := Accept(s, sensorId, chunk); var id := chunk.captureId;
            if chunk.index >= chunk.count || id == 0 || chunk.sensorId != sensorId then t == s
            else id in s.assemblies && (s.assemblies[id].stamp != chunk.stamp || s.assemblies[id].count != chunk.count) ==>
              t == s.(assemblies := s.assemblies - {id})
  {
  }

  // ---------- a stored image comes from one frame, whatever arrives ----------

  /** A chunk with this content has arrived. */
  predicate Came(arrived: seq<Chunk>, sensorId: string, id: CaptureId, stamp: int, count: nat, index: nat,
                 data: seq<Byte>)
  {
    exists c :: c in arrived && c.sensorId == sensorId && c.captureId == id && c.stamp == stamp && c.count == count
                && c.index == index && c.data == data
  }

  predicate AssembledFrom(a: Assembly, id: CaptureId, sensorId: string, arrived: seq<Chunk>) {
    && Sized(a) && a.receivedCount == CountTrue(a.received)
    && forall i :: 0 <= i < a.count && a.received[i] ==> Came(arrived, sensorId, id, a.stamp, a.count, i, a.chunks[i])
  }

  /** The image is put together from chunks of one capture, one frame and one count, one for every index. */
  ghost predicate FromOneFrame(image: Image, id: CaptureId, sensorId: string, arrived: seq<Chunk>) {
    exists parts: seq<seq<Byte>> :: parts != [] && image.data == Join(parts) &&
      forall i :: 0 <= i < |parts| ==> Came(arrived, sensorId, id, image.stamp, |parts|, i, parts[i])
  }

  ghost predicate Sourced(s: Store, sensorId: string, arrived: seq<Chunk>) {
    && (forall id :: id in s.assemblies ==> AssembledFrom(s.assemblies[id], id, sensorId, arrived))
    && (forall id :: id in s.images ==> FromOneFrame(s.images[id], id, sensorId, arrived))
  }

  lemma ArrivedBefore(s: Store, sensorId: string, arrived: seq<Chunk>, chunk: Chunk)
    requires Sourced(s, sensorId, arrived)
    ensures Sourced(s, sensorId, arrived + [chunk])
  {
    var more := arrived + [chunk];
    forall id, stamp, count, index, data | Came(arrived, sensorId, id, stamp, count, index, data)
      ensures Came(more, sensorId, id, stamp, count, index, data)
    {
      var c :| c in arrived && c.sensorId == sensorId && c.captureId == id && c.stamp == stamp && c.count == count
               && c.index == index && c.data == data;
      assert c in more;
    }
    forall id | id in s.images
      ensures FromOneFrame(s.images[id], id, sensorId, more)
    {
      var parts: seq<seq<Byte>> :| parts != [] && s.images[id].data == Join(parts) &&
        forall i :: 0 <= i < |parts| ==> Came(arrived, sensorId, id, s.images[id].stamp, |parts|, i, parts[i]);
      assert forall i :: 0 <= i < |parts| ==> Came(more, sensorId, id, s.images[id].stamp, |parts|, i, parts[i]);
    }
  }

  lemma PutIsAssembled(a: Assembly, sensorId: string, chunk: Chunk, arrived: seq<Chunk>)
    requires AssembledFrom(a, chunk.captureId, sensorId, arrived) && chunk in arrived && chunk.sensorId == sensorId
    requires chunk.index < a.count && a.count == chunk.count && a.stamp == chunk.stamp
    ensures AssembledFrom(Put(a, chunk), chunk.captureId, sensorId, arrived)
  {
    if !a.received[chunk.index] {
      CountSet(a.received, chunk.index);
      assert Came(arrived, sensorId, chunk.captureId, chunk.stamp, chunk.count, chunk.index, chunk.data);
    }
  }

  lemma CompleteIsOneFrame(a: Assembly, id: CaptureId, sensorId: string, arrived: seq<Chunk>)
    requires AssembledFrom(a, id, sensorId, arrived) && a.receivedCount == a.count
    ensures FromOneFrame(Image(a.stamp, a.format, Join(a.chunks)), id, sensorId, arrived)
  {
    CountFull(a.received);
  }

  lemma FinishIsSourced(s: Store, room: map<CaptureId, Assembly>, id: CaptureId, a: Assembly, sensorId: string,
                        arrived: seq<Chunk>)
    requires Sourced(s, sensorId, arrived) && Sourced(s.(assemblies := room), sensorId, arrived)
    requires AssembledFrom(a, id, sensorId, arrived)
    ensures Sourced(Finish(s, room, id, a), sensorId, arrived)
  {
    if a.receivedCount == a.count {
      CompleteIsOneFrame(a, id, sensorId, arrived);
    }
  }

  lemma StartedIsAssembled(room: map<CaptureId, Assembly>, sensorId: string, chunk: Chunk, arrived: seq<Chunk>)
    requires forall id :: id in room ==> AssembledFrom(room[id], id, sensorId, arrived)
    requires chunk.count > 0
    ensures AssembledFrom(Started(room, chunk), chunk.captureId, sensorId, arrived)
  {
    if chunk.captureId !in room {
      CountNone(Fresh(chunk).received);
    }
  }

  lemma AcceptIsSourced(s: Store, sensorId: string, arrived: seq<Chunk>, chunk: Chunk)
    requires WellFormed(s) && Sourced(s, sensorId, arrived)
    ensures Sourced(Accept(s, sensorId, chunk), sensorId, arrived + [chunk])
  {
    var more := arrived + [chunk];
    ArrivedBefore(s, sensorId, arrived, chunk);
    if Acceptable(chunk, sensorId) {
      var room := Room(s.assemblies, chunk.captureId);
      var started := Started(room, chunk);
      StartedIsAssembled(room, sensorId, chunk, more);
      if started.count == chunk.count && started.stamp == chunk.stamp {
        PutIsAssembled(started, sensorId, chunk, more);
        FinishIsSourced(s, room, chunk.captureId, Put(started, chunk), sensorId, more);
      }
    }
  }

  /** For every traffic, forged, mixed or damaged: a stored image is put together from chunks that arrived for
      its capture, all of one frame and one count, exactly one for every index. Bytes of two frames are never
      mixed. */
  lemma {:induction false} StoredImagesComeFromOneFrame(s: Store, sensorId: string, arrived: seq<Chunk>,
                                                        chunks: seq<Chunk>)
    requires WellFormed(s) && Sourced(s, sensorId, arrived)
    ensures Sourced(Run(s, sensorId, chunks), sensorId, arrived + chunks)
    decreases chunks
  {
    if chunks == [] {
      assert arrived + chunks == arrived;
    } else {
      AcceptIsSourced(s, sensorId, arrived, chunks[0]);
      AcceptKeepsSizes(s, sensorId, chunks[0]);
      StoredImagesComeFromOneFrame(Accept(s, sensorId, chunks[0]), sensorId, arrived + [chunks[0]], chunks[1..]);
      assert arrived + [chunks[0]] + chunks[1..] == arrived + chunks;
    }
  }

  // ---------- only published images are stored ----------

  /** What the camera published: one image per capture identifier. */
  type Published = map<CaptureId, Image>

  /** The chunk is one of the published ones. */
  predicate Genuine(chunk: Chunk, sensorId: string, p: Published) {
    && chunk.captureId in p
    && chunk.index < ChunkCount(|p[chunk.captureId].data|)
    && chunk == ChunkOf(chunk.captureId, sensorId, p[chunk.captureId], chunk.index)
  }

  predicate PartOf(a: Assembly, image: Image) {
    && a.stamp == image.stamp && a.format == image.format && a.count == ChunkCount(|image.data|)
    && Sized(a)
    && a.receivedCount == CountTrue(a.received)
    && (forall i :: 0 <= i < a.count && a.received[i] ==> a.chunks[i] == Slice(image.data, i))
  }

  predicate Faithful(s: Store, p: Published) {
    && (forall id :: id in s.assemblies ==> id in p && PartOf(s.assemblies[id], p[id]))
    && (forall id :: id in s.images ==> id in p && s.images[id] == p[id])
  }

  lemma PutKeepsPart(a: Assembly, chunk: Chunk, image: Image)
    requires PartOf(a, image) && chunk.index < a.count && chunk.data == Slice(image.data, chunk.index)
    ensures PartOf(Put(a, chunk), image)
    ensures Put(a, chunk).receivedCount == a.count ==> Join(Put(a, chunk).chunks) == image.data
  {
    if !a.received[chunk.index] {
      CountSet(a.received, chunk.index);
    }
    var b := Put(a, chunk);
    assert PartOf(b, image);
    CountFull(b.received);
    if b.receivedCount == b.count {
      assert forall i :: 0 <= i < b.count ==> b.received[i];
      SlicesJoin(image.data, b.chunks);
    }
  }

  lemma FreshIsPart(chunk: Chunk, sensorId: string, p: Published)
    requires Genuine(chunk, sensorId, p)
    ensures PartOf(Fresh(chunk), p[chunk.captureId])
  {
    CountNone(Fresh(chunk).received);
  }

  /** Storing the right image leaves only right images, whatever is evicted for it. */
  lemma StoringIsFaithful(images: map<CaptureId, Image>, id: CaptureId, p: Published)
    requires id in p && forall x :: x in images ==> x in p && images[x] == p[x]
    ensures forall x :: x in Room(images, id)[id := p[id]] ==> x in p && Room(images, id)[id := p[id]][x] == p[x]
  {
  }

  lemma FinishIsFaithful(s: Store, room: map<CaptureId, Assembly>, id: CaptureId, a: Assembly, p: Published)
    requires Faithful(s, p) && Faithful(s.(assemblies := room), p) && id in p && PartOf(a, p[id])
    requires a.receivedCount == a.count ==> Join(a.chunks) == p[id].data
    ensures Faithful(Finish(s, room, id, a), p)
  {
    if a.receivedCount == a.count {
      assert Image(a.stamp, a.format, Join(a.chunks)) == p[id];
      StoringIsFaithful(s.images, id, p);
    }
  }

  lemma AcceptIsFaithful(s: Store, sensorId: string, chunk: Chunk, p: Published)
    requires Faithful(s, p) && (Genuine(chunk, sensorId, p) || !Acceptable(chunk, sensorId))
    ensures WellFormed(s) && Faithful(Accept(s, sensorId, chunk), p)
  {
    if Acceptable(chunk, sensorId) {
      var id := chunk.captureId;
      var room := Room(s.assemblies, id);
      assert Faithful(s.(assemblies := room), p);
      FreshIsPart(chunk, sensorId, p);
      var started := Started(room, chunk);
      PutKeepsPart(started, chunk, p[id]);
      FinishIsFaithful(s, room, id, Put(started, chunk), p);
    }
  }

  /** Whatever is reordered, repeated, lost or evicted on the way, every stored image is byte for byte
      the one that was published under its capture identifier. */
  lemma {:induction false} OnlyPublishedImagesAreStored(s: Store, sensorId: string, chunks: seq<Chunk>, p: Published)
    requires WellFormed(s) && Faithful(s, p)
    requires forall c :: c in chunks ==> Genuine(c, sensorId, p) || !Acceptable(c, sensorId)
    ensures Faithful(Run(s, sensorId, chunks), p)
    decreases chunks
  {
    if chunks != [] {
      assert chunks[0] in chunks && forall c :: c in chunks[1..] ==> c in chunks;
      AcceptIsFaithful(s, sensorId, chunks[0], p);
      AcceptKeepsSizes(s, sensorId, chunks[0]);
      OnlyPublishedImagesAreStored(Accept(s, sensorId, chunks[0]), sensorId, chunks[1..], p);
    }
  }

  // ---------- without eviction, an image is stored when its last index arrives ----------

  /** The distinct indices of a capture among the arrivals. */
  function Seen(chunks: seq<Chunk>, id: CaptureId): set<nat> {
    set c | c in chunks && c.captureId == id :: c.index
  }

  predicate IsIndex(image: Image, i: nat) {
    i < ChunkCount(|image.data|)
  }

  function AllIndices(image: Image): set<nat> {
    set i: nat | 0 <= i < ChunkCount(|image.data|) && IsIndex(image, i)
  }

  /** This chunk is the last one its assembly waits for. */
  predicate Completes(s: Store, chunk: Chunk)
    requires WellFormed(s)
  {
    var a := Started(s.assemblies, chunk);
    chunk.index < chunk.count == a.count && Put(a, chunk).receivedCount == a.count
  }

  /** Nothing is evicted by this chunk: no map is full when it starts a new entry there. */
  predicate HasRoom(s: Store, chunk: Chunk)
    requires WellFormed(s)
  {
    && (chunk.captureId in s.assemblies || |s.assemblies| < LIMIT)
    && (Completes(s, chunk) ==> chunk.captureId in s.images || |s.images| < LIMIT)
  }

  ghost predicate AlwaysRoom(s: Store, sensorId: string, chunks: seq<Chunk>)
    requires WellFormed(s)
    decreases chunks
  {
    chunks == [] ||
    (HasRoom(s, chunks[0]) &&
     (AcceptKeepsSizes(s, sensorId, chunks[0]);
      AlwaysRoom(Accept(s, sensorId, chunks[0]), sensorId, chunks[1..])))
  }

  /** This index of the capture is waiting in an assembly. */
  predicate Waiting(s: Store, id: CaptureId, i: nat) {
    id in s.assemblies && i < |s.assemblies[id].received| && s.assemblies[id].received[i]
  }

  /** The store after exactly the indices in `seen` of one capture have arrived. */
  predicate Tracks(s: Store, id: CaptureId, image: Image, seen: set<nat>) {
    if seen == AllIndices(image) then id in s.images
    else
      && id !in s.images
      && (id in s.assemblies ==> Sized(s.assemblies[id]) && s.assemblies[id].count == ChunkCount(|image.data|))
      && forall i :: 0 <= i < ChunkCount(|image.data|) ==> (i in seen <==> Waiting(s, id, i))
  }

  /** A chunk of another capture leaves this one alone. */
  lemma OtherCaptureTracks(s: Store, sensorId: string, chunk: Chunk, p: Published, id: CaptureId, seen: set<nat>)
    requires WellFormed(s) && Faithful(s, p) && Genuine(chunk, sensorId, p) && HasRoom(s, chunk) && id in p
    requires chunk.captureId != id && Tracks(s, id, p[id], seen)
    ensures Tracks(Accept(s, sensorId, chunk), id, p[id], seen)
  {
  }

  lemma FinishTracks(s: Store, id: CaptureId, a: Assembly, image: Image, seen: set<nat>)
    requires PartOf(a, image) && seen <= AllIndices(image)
    requires a.receivedCount == a.count ==> id in s.images || |s.images| < LIMIT
    requires forall i :: 0 <= i < a.count ==> (i in seen <==> a.received[i])
    requires id !in s.images
    ensures Tracks(Finish(s, s.assemblies, id, a), id, image, seen)
  {
    CountFull(a.received);
    if a.receivedCount == a.count {
      assert forall i :: 0 <= i < a.count ==> i in seen;
      assert seen == AllIndices(image);
    } else {
      var i :| 0 <= i < a.count && !a.received[i];
      assert i in AllIndices(image) && i !in seen;
    }
  }

  lemma SameCaptureTracks(s: Store, sensorId: string, chunk: Chunk, p: Published, id: CaptureId, seen: set<nat>)
    requires WellFormed(s) && Faithful(s, p) && Genuine(chunk, sensorId, p) && HasRoom(s, chunk) && 0 !in p
    requires chunk.captureId == id && seen <= AllIndices(p[id]) && Tracks(s, id, p[id], seen)
    ensures Tracks(Accept(s, sensorId, chunk), id, p[id], seen + {chunk.index})
  {
    FreshIsPart(chunk, sensorId, p);
    var started := Started(s.assemblies, chunk);
    var a := Put(started, chunk);
    PutKeepsPart(started, chunk, p[id]);
    var after := seen + {chunk.index};
    assert chunk.index in AllIndices(p[id]);
    if seen == AllIndices(p[id]) {
      assert after == seen;
    } else {
      assert forall i :: 0 <= i < a.count ==> (i in seen <==> Waiting(s, id, i));
      FinishTracks(s, id, a, p[id], after);
    }
  }

  /** The indices of one capture after one more arrival of any capture. */
  function Also(seen: set<nat>, chunk: Chunk, id: CaptureId): set<nat> {
    if chunk.captureId == id then seen + {chunk.index} else seen
  }

  lemma SeenStep(seen: set<nat>, chunks: seq<Chunk>, id: CaptureId)
    requires chunks != []
    ensures Also(seen, chunks[0], id) + Seen(chunks[1..], id) == seen + Seen(chunks, id)
  {
    assert chunks == [chunks[0]] + chunks[1..];
  }

  lemma AcceptTracks(s: Store, sensorId: string, chunk: Chunk, p: Published, id: CaptureId, seen: set<nat>)
    requires WellFormed(s) && Faithful(s, p) && Genuine(chunk, sensorId, p) && HasRoom(s, chunk) && 0 !in p
    requires id in p && seen <= AllIndices(p[id]) && Tracks(s, id, p[id], seen)
    ensures Tracks(Accept(s, sensorId, chunk), id, p[id], Also(seen, chunk, id))
    ensures Also(seen, chunk, id) <= AllIndices(p[id])
    ensures WellFormed(Accept(s, sensorId, chunk)) && Faithful(Accept(s, sensorId, chunk), p)
  {
    AcceptIsFaithful(s, sensorId, chunk, p);
    AcceptKeepsSizes(s, sensorId, chunk);
    if chunk.captureId == id {
      SameCaptureTracks(s, sensorId, chunk, p, id, seen);
    } else {
      OtherCaptureTracks(s, sensorId, chunk, p, id, seen);
    }
  }

  lemma {:induction false} RunTracks(
    s: Store, sensorId: string, chunks: seq<Chunk>, p: Published, id: CaptureId, seen: set<nat>)
    requires WellFormed(s) && Faithful(s, p) && 0 !in p && id in p && seen <= AllIndices(p[id])
    requires forall c :: c in chunks ==> Genuine(c, sensorId, p)
    requires AlwaysRoom(s, sensorId, chunks) && Tracks(s, id, p[id], seen)
    ensures Tracks(Run(s, sensorId, chunks), id, p[id], seen + Seen(chunks, id))
    decreases chunks
  {
    if chunks == [] {
      assert seen + Seen(chunks, id) == seen;
    } else {
      assert chunks[0] in chunks && forall c :: c in chunks[1..] ==> c in chunks;
      AcceptTracks(s, sensorId, chunks[0], p, id, seen);
      RunTracks(Accept(s, sensorId, chunks[0]), sensorId, chunks[1..], p, id, Also(seen, chunks[0], id));
      SeenStep(seen, chunks, id);
    }
  }

  /** In any arrival order with any repetitions, as long as no map overflows: the image of a capture is
      stored, and equal to the published one, exactly from the arrival of its last distinct index. */
  lemma StoredExactlyWhenComplete(sensorId: string, chunks: seq<Chunk>, p: Published, id: CaptureId)
    requires 0 !in p && id in p && |p[id].data| > 0
    requires forall c :: c in chunks ==> Genuine(c, sensorId, p)
    requires AlwaysRoom(Empty, sensorId, chunks)
    ensures var s := Run(Empty, sensorId, chunks);
            && (id in s.images <==> Seen(chunks, id) == AllIndices(p[id]))
            && (id in s.images ==> s.images[id] == p[id])
  {
    assert ChunkCount(|p[id].data|) >= 1;
    assert 0 in AllIndices(p[id]);
    RunTracks(Empty, sensorId, chunks, p, id, {});
    assert {} + Seen(chunks, id) == Seen(chunks, id);
    OnlyPublishedImagesAreStored(Empty, sensorId, chunks, p);
  }

  // ---------- the recorder's frame bucket ----------

  class SensorFrames {
    const sensorId: string
    var assemblies: map<CaptureId, Assembly>
    var images: map<CaptureId, Image>

    ghost function View(): Store
      reads this
    {
      Store(assemblies, images)
    }

    constructor (sensorId: string)
      ensures View() == Empty && this.sensorId == sensorId
    {
      this.sensorId := sensorId;
      assemblies, images := map[], map[];
    }

    method MakeRoom<V>(m: map<CaptureId, V>) returns (r: map<CaptureId, V>)
      ensures r == Trim(m)
    {
      r := m;
      while |r| >= LIMIT
        invariant Trim(r) == Trim(m)
        decreases |r|
      {
        assert |r.Keys| == |r|;
        FirstExists(r.Keys);
        assert exists k :: k in r.Keys && forall j :: j in r.Keys ==> k <= j by {
          var k :| IsFirst(r.Keys, k);
        }
        var first :| first in r.Keys && forall j :: j in r.Keys ==> first <= j;
        assert first == First(r.Keys);
        assert (r - {first}).Keys == r.Keys - {first};
        assert |(r - {first}).Keys| == |r.Keys| - 1;
        r := r - {first};
      }
    }

    method Concatenate(parts: seq<seq<Byte>>) returns (data: seq<Byte>)
      ensures data == Join(parts)
    {
      data := [];
      for i := 0 to |parts|
        invariant data == Join(parts[..i])
      {
        assert parts[..i + 1][..i] == parts[..i];
        data := data + parts[i];
      }
      assert parts[..|parts|] == parts;
    }

    lemma InsertThenRemove<V>(m: map<CaptureId, V>, id: CaptureId, v: V)
      ensures m[id := v] - {id} == m - {id}
    {
    }

    /** The complete assembly becomes the image of its capture. */
    method StoreImage(id: CaptureId, assembly: Assembly)
      modifies this
      ensures assemblies == old(assemblies) - {id}
      ensures images == Room(old(images), id)[id := Image(assembly.stamp, assembly.format, Join(assembly.chunks))]
    {
      var data := Concatenate(assembly.chunks);
      if id !in images {
        images := MakeRoom(images);
      }
      images := images[id := Image(assembly.stamp, assembly.format, data)];
      assemblies := assemblies - {id};
    }

    method AcceptChunk(chunk: Chunk)
      requires WellFormed(View())
      modifies this
      ensures View() == Accept(old(View()), sensorId, chunk)
    {
      if chunk.count == 0 || chunk.index >= chunk.count || chunk.captureId == 0 || chunk.sensorId != sensorId {
        return;
      }
      var id := chunk.captureId;
      if id !in assemblies {
        assemblies := MakeRoom(assemblies);
      }
      ghost var room := assemblies;
      var assembly := Started(assemblies, chunk);
      if assembly.count != chunk.count || assembly.stamp != chunk.stamp {
        assemblies := assemblies - {id};
        return;
      }
      if !assembly.received[chunk.index] {
        assembly := assembly.(
          chunks := assembly.chunks[chunk.index := chunk.data],
          received := assembly.received[chunk.index := true],
          receivedCount := assembly.receivedCount + 1);
      }
      assemblies := assemblies[id := assembly];
      if assembly.receivedCount == assembly.count {
        InsertThenRemove(room, id, assembly);
        StoreImage(id, assembly);
      }
    }
  }
}
