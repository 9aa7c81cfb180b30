/**
 Content-addressed object stores: the S3 multipart upload
 (`crates/rollout-cloud-aws/src/s3/put_stream.rs`) and the local file store
 (`crates/rollout-cloud-local/src/object_store.rs`).
 */
module ObjectStores {
  import opened Wrappers
  import opened Ordered
  import opened Chunks

  /** A hash.  Hashes do not collide, so it stands for what was hashed. */
  datatype ContentId = ContentId(of: seq<byte>)

  function ContentOf(bytes: seq<byte>): ContentId {
    ContentId(bytes)
  }

  /** The incremental hasher. */
  class Hasher {
    var absorbed: seq<byte>

    constructor ()
      ensures absorbed == []
    {
      absorbed := [];
    }

    method Update(chunk: seq<byte>)
      modifies this
      ensures absorbed == old(absorbed) + chunk
    {
      absorbed := absorbed + chunk;
    }

    method Finish() returns (id: ContentId)
      ensures id == ContentOf(absorbed)
    {
      id := ContentOf(absorbed);
    }
  }

  /** An asynchronous reader: a read delivers any non-zero number of bytes, up to the room
      given, or fails; zero bytes mean the end.  `faults` is history: the reads that failed. */
  class Reader {
    const data: seq<byte>
    var pos: nat
    ghost var faults: nat

    ghost predicate Valid()
      reads this
    {
      pos <= |data|
    }

    constructor (data: seq<byte>)
      ensures Valid() && this.data == data && pos == 0
    {
      this.data, pos, faults := data, 0, 0;
    }

    method Read(buf: array<byte>, from: nat) returns (r: Option<nat>)
      requires Valid() && from < buf.Length
      modifies this, buf
      ensures Valid() && faults == old(faults) + if r.None? then 1 else 0
      ensures buf[..from] == old(buf[..from])
      ensures r.None? ==> pos == old(pos)
      ensures r.Some? ==>
        && r.value <= buf.Length - from && pos == old(pos) + r.value
        && buf[from..from + r.value] == data[old(pos)..pos]
        && (r.value == 0 <==> old(pos) == |data|)
    {
      var fails: bool := *;
      if fails {
        faults := faults + 1;
        return None;
      }
      if pos == |data| {
        return Some(0);
      }
      var n: nat :| 1 <= n <= |data| - pos && n <= buf.Length - from;
      forall i | 0 <= i < n {
        buf[from + i] := data[pos + i];
      }
      pos := pos + n;
      r := Some(n);
    }
  }

  datatype Key = Temp(ulid: nat) | Final(id: ContentId)

  /** What `CompleteMultipartUpload` assembles: the stored parts in the order listed. */
  function Assemble(stored: Parts, numbers: seq<nat>): seq<byte>
    requires forall n :: n in numbers ==> n in stored
  {
    if numbers == [] then [] else stored[numbers[0]] + Assemble(stored, numbers[1..])
  }

  /** Every final object is stored under the hash of its content. */
  predicate Addressed(objects: map<Key, seq<byte>>) {
    forall k :: k in objects && k.Final? ==> ContentOf(objects[k]) == k.id
  }

  type Parts = map<nat, seq<byte>>

  function StoredWith(stored: Parts, number: nat, bytes: seq<byte>): Parts {
    stored[number := bytes]
  }

  function WithPart(uploads: map<nat, Parts>, upload: nat, number: nat, bytes: seq<byte>): map<nat, Parts>
    requires upload in uploads
  {
    uploads[upload := StoredWith(uploads[upload], number, bytes)]
  }

  /** A bucket; every request may fail, and then does nothing.  `faults` counts those that did. */
  class Bucket {
    var objects: map<Key, seq<byte>>
    var uploads: map<nat, Parts>
    ghost var faults: nat

    constructor ()
      ensures objects == map[] && uploads == map[]
    {
      objects, uploads, faults := map[], map[], 0;
    }

    method CreateUpload() returns (id: Option<nat>)
      modifies this`uploads, this`faults
      ensures faults == old(faults) + if id.None? then 1 else 0
      ensures id.None? ==> uploads == old(uploads)
      ensures id.Some? ==> id.value !in old(uploads) && uploads == old(uploads)[id.value := map[]]
    {
      var fails: bool := *;
      if fails {
        faults := faults + 1;
        return None;
      }
      FreshExists(uploads.Keys);
      var upload :| upload !in uploads;
      uploads := uploads[upload := map[]];
      id := Some(upload);
    }

    method UploadPart(upload: nat, number: nat, bytes: seq<byte>) returns (ok: bool)
      requires upload in uploads
      modifies this`uploads, this`faults
      ensures faults == old(faults) + if ok then 0 else 1
      ensures uploads == if ok then WithPart(old(uploads), upload, number, bytes) else old(uploads)
    {
      ok := *;
      if ok {
        uploads := WithPart(uploads, upload, number, bytes);
      } else {
        faults := faults + 1;
      }
    }

    method AbortUpload(upload: nat) returns (ok: bool)
      modifies this`uploads, this`faults
      ensures faults == old(faults) + if ok then 0 else 1
      ensures uploads == if ok then old(uploads) - {upload} else old(uploads)
    {
      ok := *;
      if ok {
        uploads := uploads - {upload};
      } else {
        faults := faults + 1;
      }
    }

    /** The service refuses a part list out of order or naming a part it does not hold. */
    method CompleteUpload(upload: nat, key: Key, numbers: seq<nat>) returns (ok: bool)
      requires upload in uploads
      modifies this
      ensures ok ==>
        && Increasing(numbers) && (forall n :: n in numbers ==> n in old(uploads)[upload])
        && objects == old(objects)[key := Assemble(old(uploads)[upload], numbers)]
        && uploads == old(uploads) - {upload}
      ensures !ok ==> objects == old(objects) && uploads == old(uploads)
      ensures Increasing(numbers) && (forall n :: n in numbers ==> n in old(uploads)[upload]) ==>
        faults == old(faults) + if ok then 0 else 1
      ensures faults >= old(faults)
    {
      ok := *;
      if !ok {
        faults := faults + 1;
      }
      if !Increasing(numbers) || exists n :: n in numbers && n !in uploads[upload] {
        ok := false;
      }
      if ok {
        objects := objects[key := Assemble(uploads[upload], numbers)];
        uploads := uploads - {upload};
      }
    }

    method CopyObject(source: Key, target: Key) returns (ok: bool)
      requires source in objects
      modifies this`objects, this`faults
      ensures faults == old(faults) + if ok then 0 else 1
      ensures objects == if ok then old(objects)[target := old(objects)[source]] else old(objects)
    {
      ok := *;
      if ok {
        objects := objects[target := objects[source]];
      } else {
        faults := faults + 1;
      }
    }

    method DeleteObject(key: Key) returns (ok: bool)
      modifies this`objects, this`faults
      ensures faults == old(faults) + if ok then 0 else 1
      ensures objects == if ok then old(objects) - {key} else old(objects)
    {
      ok := *;
      if ok {
        objects := objects - {key};
      } else {
        faults := faults + 1;
      }
    }
  }

  predicate Numbered(numbers: seq<nat>) {
    forall i :: 0 <= i < |numbers| ==> numbers[i] == i + 1
  }

  predicate HoldsPart(stored: Parts, number: nat, part: seq<byte>) {
    number in stored && stored[number] == part
  }

  /** The parts an upload holds so far, numbered from one without gaps. */
  predicate Holds(stored: Parts, numbers: seq<nat>, parts: seq<seq<byte>>) {
    && |numbers| == |parts| && Numbered(numbers)
    && (forall i :: 0 <= i < |parts| ==> HoldsPart(stored, i + 1, parts[i]))
  }

  lemma {:induction false} AssembleIsConcat(stored: Parts, numbers: seq<nat>, parts: seq<seq<byte>>, k: nat)
    requires Holds(stored, numbers, parts) && k <= |parts|
    requires forall n :: n in numbers[k..] ==> n in stored
    ensures Assemble(stored, numbers[k..]) == Concat(parts[k..])
    decreases |parts| - k
  {
    if k < |parts| {
      assert HoldsPart(stored, k + 1, parts[k]);
      assert numbers[k..][1..] == numbers[k + 1..] && parts[k..][1..] == parts[k + 1..];
      AssembleIsConcat(stored, numbers, parts, k + 1);
    }
  }

  /** Hash, then upload one part; the hasher has absorbed the chunk even when the upload fails. */
  method UploadOnePart(bucket: Bucket, upload: nat, partNumber: nat, chunk: seq<byte>, hasher: Hasher, numbers: seq<nat>)
    returns (more: Option<seq<nat>>)
    requires upload in bucket.uploads
    modifies bucket`uploads, bucket`faults, hasher
    ensures hasher.absorbed == old(hasher.absorbed) + chunk
    ensures bucket.faults == old(bucket.faults) + if more.None? then 1 else 0
    ensures more.None? ==> bucket.uploads == old(bucket.uploads)
    ensures more.Some? ==>
      && more.value == numbers + [partNumber]
      && upload in bucket.uploads
      && bucket.uploads[upload] == StoredWith(old(bucket.uploads[upload]), partNumber, chunk)
      && bucket.uploads - {upload} == old(bucket.uploads) - {upload}
  {
    hasher.Update(chunk);
    var ok := bucket.UploadPart(upload, partNumber, chunk);
    more := if ok then Some(numbers + [partNumber]) else None;
  }

  /** Where the fill-and-flush loop stands: `sent` parts are stored and hashed, and what they
      leave of the stream would be cut into the remaining parts of the whole. */
  predicate Sending(data: seq<byte>, size: nat, done: nat, sent: seq<seq<byte>>, stored: Parts,
                    numbers: seq<nat>, absorbed: seq<byte>)
    requires size > 0
  {
    && done <= |data| && absorbed == data[..done]
    && Holds(stored, numbers, sent)
    && Cut(data, size) == sent + Rest(sent != [], data[done..], size)
  }

  lemma Adjacent(data: seq<byte>, a: nat, b: nat, c: nat)
    requires a <= b <= c <= |data|
    ensures data[a..b] + data[b..c] == data[a..c]
  {
    var joined := data[a..b] + data[b..c];
    assert |joined| == c - a;
    forall i | 0 <= i < c - a ensures joined[i] == data[a..c][i] {
      if i < b - a {
        assert joined[i] == data[a..b][i];
      } else {
        assert joined[i] == data[b..c][i - (b - a)];
      }
    }
  }

  lemma HoldsSnoc(stored: Parts, numbers: seq<nat>, parts: seq<seq<byte>>, chunk: seq<byte>)
    requires Holds(stored, numbers, parts)
    ensures Holds(StoredWith(stored, |parts| + 1, chunk), numbers + [|parts| + 1], parts + [chunk])
  {
    var stored', numbers', parts' := StoredWith(stored, |parts| + 1, chunk), numbers + [|parts| + 1], parts + [chunk];
    assert Numbered(numbers');
    forall i | 0 <= i < |parts'| ensures HoldsPart(stored', i + 1, parts'[i]) {
      if i < |parts| {
        assert parts'[i] == parts[i] && HoldsPart(stored, i + 1, parts[i]);
      }
    }
  }

  /** Flushing a full chunk. */
  lemma SendFull(data: seq<byte>, size: nat, done: nat, sent: seq<seq<byte>>, stored: Parts,
                 numbers: seq<nat>, absorbed: seq<byte>)
    requires size > 0 && Sending(data, size, done, sent, stored, numbers, absorbed)
    requires done + size <= |data|
    ensures var chunk, n := data[done..done + size], |sent| + 1;
      Sending(data, size, done + size, sent + [chunk], StoredWith(stored, n, chunk), numbers + [n], absorbed + chunk)
  {
    var chunk := data[done..done + size];
    HoldsSnoc(stored, numbers, sent, chunk);
    assert absorbed + chunk == data[..done + size];
    CutStep(data[done..], size, sent);
    assert data[done..][..size] == chunk && data[done..][size..] == data[done + size..];
  }

  lemma CutStep(rest: seq<byte>, size: nat, sent: seq<seq<byte>>)
    requires 0 < size <= |rest|
    ensures sent + Rest(sent != [], rest, size) == (sent + [rest[..size]]) + Rest(true, rest[size..], size)
  {
    RestStep(sent != [], rest, size);
  }

  /** Flushing what is left at the end of the stream. */
  lemma SendLast(data: seq<byte>, size: nat, done: nat, sent: seq<seq<byte>>, stored: Parts,
                 numbers: seq<nat>, absorbed: seq<byte>)
    requires size > 0 && Sending(data, size, done, sent, stored, numbers, absorbed)
    requires |data| - done < size
    ensures var chunk := data[done..];
      if |chunk| > 0 || sent == [] then
        && Holds(StoredWith(stored, |sent| + 1, chunk), numbers + [|sent| + 1], sent + [chunk])
        && sent + [chunk] == Cut(data, size) && absorbed + chunk == data
      else
        sent == Cut(data, size) && absorbed == data
  {
    assert data[..done] + data[done..] == data;
    HoldsSnoc(stored, numbers, sent, data[done..]);
    if |data[done..]| == 0 {
      assert sent + [] == sent;
    }
  }

  /** The configured chunk size, never below the service's minimum of 5 MiB. */
  function ChunkSize(configured: nat): nat {
    if configured > 5 * 1024 * 1024 then configured else 5 * 1024 * 1024
  }

  /** One read behind what the buffer already holds of the stream. */
  method Fill(reader: Reader, buf: array<byte>, filled: nat, ghost done: nat) returns (n: Option<nat>)
    requires reader.Valid() && filled < buf.Length && reader.pos == done + filled
    requires buf[..filled] == reader.data[done..reader.pos]
    modifies reader, buf
    ensures reader.Valid() && reader.faults == old(reader.faults) + if n.None? then 1 else 0
    ensures n.Some? ==>
      && filled + n.value <= buf.Length && reader.pos == done + filled + n.value
      && buf[..filled + n.value] == reader.data[done..reader.pos]
      && (n.value == 0 <==> old(reader.pos) == |reader.data|)
      && (n.value == 0 ==> buf[..filled] == reader.data[done..])
  {
    n := reader.Read(buf, filled);
    if n.Some? {
      assert buf[..filled + n.value] == buf[..filled] + buf[filled..filled + n.value];
      Adjacent(reader.data, done, done + filled, done + filled + n.value);
    }
  }

  /** A full buffer goes out as the next part. */
  method FlushFull(bucket: Bucket, upload: nat, partNumber: nat, buf: array<byte>, hasher: Hasher, numbers: seq<nat>,
                   ghost data: seq<byte>, ghost done: nat, ghost sent: seq<seq<byte>>)
    returns (more: Option<seq<nat>>)
    requires upload in bucket.uploads && partNumber == |sent| + 1
    requires buf.Length > 0 && done + buf.Length <= |data| && buf[..] == data[done..done + buf.Length]
    requires Sending(data, buf.Length, done, sent, bucket.uploads[upload], numbers, hasher.absorbed)
    modifies bucket`uploads, bucket`faults, hasher
    ensures upload in bucket.uploads && bucket.uploads - {upload} == old(bucket.uploads) - {upload}
    ensures bucket.faults == old(bucket.faults) + if more.None? then 1 else 0
    ensures more.Some? ==>
      Sending(data, buf.Length, done + buf.Length, sent + [buf[..]], bucket.uploads[upload], more.value, hasher.absorbed)
  {
    SendFull(data, buf.Length, done, sent, bucket.uploads[upload], numbers, hasher.absorbed);
    more := UploadOnePart(bucket, upload, partNumber, buf[..], hasher, numbers);
  }

  /** What is left at the end goes out, if there is anything or no part has gone out yet. */
  method FlushLast(bucket: Bucket, upload: nat, partNumber: nat, rest: seq<byte>, hasher: Hasher, numbers: seq<nat>,
                   ghost data: seq<byte>, ghost size: nat, ghost done: nat, ghost sent: seq<seq<byte>>)
    returns (more: Option<seq<nat>>)
    requires upload in bucket.uploads && partNumber == |sent| + 1
    requires |rest| < size && done <= |data| && rest == data[done..]
    requires Sending(data, size, done, sent, bucket.uploads[upload], numbers, hasher.absorbed)
    modifies bucket`uploads, bucket`faults, hasher
    ensures upload in bucket.uploads && bucket.uploads - {upload} == old(bucket.uploads) - {upload}
    ensures bucket.faults == old(bucket.faults) + if more.None? then 1 else 0
    ensures more.Some? ==>
      Holds(bucket.uploads[upload], more.value, Cut(data, size)) && hasher.absorbed == data
  {
    SendLast(data, size, done, sent, bucket.uploads[upload], numbers, hasher.absorbed);
    if |rest| > 0 || partNumber == 1 {
      more := UploadOnePart(bucket, upload, partNumber, rest, hasher, numbers);
    } else {
      more := Some(numbers);
    }
  }

  /**
   The fill-and-flush loop over one reused buffer.  However the reads fall, the parts sent are
   exactly the cut of the stream, numbered from one, and the hasher has absorbed the stream.
   */
  method SendParts(bucket: Bucket, upload: nat, reader: Reader, size: nat, hasher: Hasher)
    returns (numbers: Option<seq<nat>>)
    requires size > 0 && reader.Valid() && reader.pos == 0 && hasher.absorbed == []
    requires upload in bucket.uploads && bucket.uploads[upload] == map[]
    modifies bucket`uploads, bucket`faults, reader, hasher
    ensures upload in bucket.uploads && bucket.uploads - {upload} == old(bucket.uploads) - {upload}
    ensures bucket.faults + reader.faults == old(bucket.faults) + old(reader.faults) + if numbers.None? then 1 else 0
    ensures bucket.faults >= old(bucket.faults) && reader.faults >= old(reader.faults)
    ensures numbers.Some? ==>
      && Holds(bucket.uploads[upload], numbers.value, Cut(reader.data, size))
      && hasher.absorbed == reader.data
  {
    var parts: seq<nat> := [];
    var partNumber: nat := 1;
    var buf := new byte[size](_ => 0);
    var filled: nat := 0;
    ghost var data, sent: seq<seq<byte>> := reader.data, [];
    ghost var done: nat := 0;
    NothingSent(data, size);
    while true
      invariant reader.Valid() && reader.pos == done + filled && filled < size
      invariant upload in bucket.uploads && bucket.uploads - {upload} == old(bucket.uploads) - {upload}
      invariant Sending(data, size, done, sent, bucket.uploads[upload], parts, hasher.absorbed)
      invariant partNumber == |sent| + 1
      invariant bucket.faults == old(bucket.faults) && reader.faults == old(reader.faults)
      invariant buf[..filled] == data[done..done + filled]
      decreases |data| - reader.pos
    {
      var n := Fill(reader, buf, filled, done);
      if n.None? {
        return None;
      }
      if n.value == 0 {
        assert buf[..filled] == data[done..] && |data[done..]| == filled;
        var more := FlushLast(bucket, upload, partNumber, buf[..filled], hasher, parts, data, size, done, sent);
        return more;
      }
      filled := filled + n.value;
      if filled == size {
        assert buf[..] == buf[..filled] == data[done..done + buf.Length];
        var more := FlushFull(bucket, upload, partNumber, buf, hasher, parts, data, done, sent);
        if more.None? {
          return None;
        }
        parts := more.value;
        sent, done := sent + [buf[..]], done + size;
        partNumber := partNumber + 1;
        filled := 0;
      }
    }
  }

  lemma NothingSent(data: seq<byte>, size: nat)
    requires size > 0
    ensures Sending(data, size, 0, [], map[], [], [])
  {
    assert data[0..] == data && [] + Cut(data, size) == Cut(data, size);
  }

  lemma HeldNumbers(stored: Parts, numbers: seq<nat>, parts: seq<seq<byte>>)
    requires Holds(stored, numbers, parts)
    ensures Increasing(numbers) && forall n :: n in numbers ==> n in stored
  {
    forall n | n in numbers ensures n in stored {
      var i :| 0 <= i < |numbers| && numbers[i] == n;
      assert HoldsPart(stored, i + 1, parts[i]);
    }
  }

  function Finals(objects: map<Key, seq<byte>>): map<Key, seq<byte>> {
    map k | k in objects && k.Final? :: objects[k]
  }

  /** What became of the multipart upload: never opened or finished, aborted on failure, or left
      behind when the abort failed too (it is only logged). */
  datatype Upload = Closed | Aborted | Leaked(id: nat)

  /** The uploads after a put whose upload came to this end. */
  ghost predicate UploadEnd(before: map<nat, Parts>, after: map<nat, Parts>, end: Upload) {
    match end
    case Leaked(id) => id !in before && id in after && after - {id} == before
    case _ => after == before
  }

  /** The guard's drop: abort, and if that fails leave the upload to the bucket's lifecycle policy. */
  method DropGuard(bucket: Bucket, upload: nat) returns (end: Upload)
    requires upload in bucket.uploads
    modifies bucket`uploads, bucket`faults
    ensures bucket.faults == old(bucket.faults) + if end.Aborted? then 0 else 1
    ensures end == Aborted || end == Leaked(upload)
    ensures bucket.uploads == if end.Aborted? then old(bucket.uploads) - {upload} else old(bucket.uploads)
  {
    var ok := bucket.AbortUpload(upload);
    end := if ok then Aborted else Leaked(upload);
  }

  /**
   The whole streaming put under a fresh temporary key.  It succeeds exactly when no read and no
   request fails.  On success the stream's bytes, whatever
   the reads and the part size, are stored under their own hash and nothing else has changed.
   On failure the final objects are as before, or already hold the stream; either way every
   final object is the one its key names.  The open uploads are as before, except that a failed
   put whose abort fails too leaves exactly its own upload open.
   */
  method PutStream(bucket: Bucket, reader: Reader, configured: nat, ulid: nat)
    returns (r: Option<ContentId>, ghost end: Upload, ghost sent: seq<seq<byte>>)
    requires reader.Valid() && reader.pos == 0 && Addressed(bucket.objects)
    requires Temp(ulid) !in bucket.objects
    modifies bucket, reader
    ensures r.Some? <==> bucket.faults == old(bucket.faults) && reader.faults == old(reader.faults)
    ensures r.Some? ==>
      Concat(sent) == reader.data && WellCut(sent, if configured > 5_242_880 then configured else 5_242_880)
    ensures Addressed(bucket.objects) && UploadEnd(old(bucket.uploads), bucket.uploads, end)
    ensures bucket.uploads == old(bucket.uploads) <==> !end.Leaked?
    ensures r.Some? ==>
      && r.value == ContentOf(reader.data)
      && bucket.objects == old(bucket.objects)[Final(r.value) := reader.data]
      && end == Closed
    ensures r.None? ==>
      || Finals(bucket.objects) == Finals(old(bucket.objects))
      || Finals(bucket.objects) == Finals(old(bucket.objects))[Final(ContentOf(reader.data)) := reader.data]
  {
    var temp := Temp(ulid);
    sent := [];
    var upload := bucket.CreateUpload();
    if upload.None? {
      return None, Closed, sent;
    }
    var hasher := new Hasher();
    var parts := SendParts(bucket, upload.value, reader, ChunkSize(configured), hasher);
    assert bucket.uploads - {upload.value} == old(bucket.uploads);
    if parts.None? {
      var dropped := DropGuard(bucket, upload.value);
      return None, dropped, sent;
    }
    var id := hasher.Finish();
    ghost var stored, cut := bucket.uploads[upload.value], Cut(reader.data, ChunkSize(configured));
    assert parts.value[0..] == parts.value && cut[0..] == cut;
    HeldNumbers(stored, parts.value, cut);
    AssembleIsConcat(stored, parts.value, cut, 0);
    CutIsWellCut(reader.data, ChunkSize(configured));
    sent := cut;
    r, end := Publish(bucket, upload.value, temp, parts.value, id, reader.data);
  }

  /** Commit the upload, copy it to its final key and delete the temporary one. */
  method Publish(bucket: Bucket, upload: nat, temp: Key, numbers: seq<nat>, id: ContentId, ghost data: seq<byte>)
    returns (r: Option<ContentId>, ghost end: Upload)
    requires upload in bucket.uploads && temp.Temp? && temp !in bucket.objects && Addressed(bucket.objects)
    requires id == ContentOf(data)
    requires forall n :: n in numbers ==> n in bucket.uploads[upload]
    requires Increasing(numbers) && Assemble(bucket.uploads[upload], numbers) == data
    modifies bucket
    ensures r.Some? <==> bucket.faults == old(bucket.faults)
    ensures Addressed(bucket.objects)
    ensures UploadEnd(old(bucket.uploads) - {upload}, bucket.uploads, end)
    ensures end.Leaked? ==> end.id == upload
    ensures r.Some? ==> r.value == id && bucket.objects == old(bucket.objects)[Final(id) := data] && end == Closed
    ensures r.None? ==>
      || Finals(bucket.objects) == Finals(old(bucket.objects))
      || Finals(bucket.objects) == Finals(old(bucket.objects))[Final(id) := data]
  {
    ghost var before := bucket.objects;
    var committed := bucket.CompleteUpload(upload, temp, numbers);
    if !committed {
      var dropped := DropGuard(bucket, upload);
      return None, dropped;
    }
    end := Closed;
    assert Finals(bucket.objects) == Finals(before);
    var copied := bucket.CopyObject(temp, Final(id));
    if !copied {
      return None, Closed;
    }
    assert Finals(bucket.objects) == Finals(before)[Final(id) := data];
    var deleted := bucket.DeleteObject(temp);
    if !deleted {
      return None, Closed;
    }
    assert bucket.objects == before[Final(id) := data];
    r := Some(id);
  }

  /** The local store: one file for each content id. */
  class FileStore {
    var blobs: map<ContentId, seq<byte>>

    ghost predicate Valid()
      reads this
    {
      forall id :: id in blobs ==> ContentOf(blobs[id]) == id
    }

    constructor ()
      ensures Valid() && blobs == map[]
    {
      blobs := map[];
    }

    /** The one-shot put skips the write when the file exists. */
    method PutBytes(bytes: seq<byte>) returns (id: ContentId)
      requires Valid()
      modifies this
      ensures Valid() && id == ContentOf(bytes)
      ensures blobs == old(blobs)[id := bytes]
    {
      id := ContentOf(bytes);
      if id !in blobs {
        blobs := blobs[id := bytes];
      }
    }

    /** The streaming put: hash and write whatever each read delivers into a 64 KiB buffer. */
    method PutStream(reader: Reader) returns (r: Option<ContentId>)
      requires Valid() && reader.Valid() && reader.pos == 0
      modifies this, reader
      ensures Valid() && (r.Some? <==> reader.faults == old(reader.faults))
      ensures r.None? ==> blobs == old(blobs)
      ensures r.Some? ==> r.value == ContentOf(reader.data) && blobs == old(blobs)[r.value := reader.data]
    {
      var hasher := new Hasher();
      var file: seq<byte> := [];
      var buf := new byte[64 * 1024](_ => 0);
      ghost var data := reader.data;
      while true
        invariant reader.Valid() && blobs == old(blobs) && reader.faults == old(reader.faults)
        invariant file == data[..reader.pos] && hasher.absorbed == file
        decreases |data| - reader.pos
      {
        var n := reader.Read(buf, 0);
        if n.None? {
          return None;
        }
        if n.value == 0 {
          break;
        }
        assert buf[..n.value] == buf[0..0 + n.value];
        assert data[..reader.pos] == data[..reader.pos - n.value] + data[reader.pos - n.value..reader.pos];
        hasher.Update(buf[..n.value]);
        file := file + buf[..n.value];
      }
      assert data[..reader.pos] == data;
      var id := hasher.Finish();
      if id !in blobs {
        blobs := blobs[id := file];
      }
      r := Some(id);
    }
  }
}
