/** Streaming upload: a bounded, validated stream of chunks is written to exclusive storage; either the
    whole object and its row appear, or nothing does. */
module AttachmentUpload {
  import opened Common
  import opened Utf8

  datatype ContentType = Text | Png | Jpeg | Pdf

  datatype Error = EmptyFile | ContentInvalid | TooLarge | KeyExists | DiskFailure | CommitFailure

  datatype Row = Row(objectKey: string, sizeBytes: nat)

  datatype Outcome = Stored(row: Row) | Failed(error: Error)

  function Concat(chunks: seq<seq<byte>>): seq<byte> {
    if chunks == [] then [] else chunks[0] + Concat(chunks[1..])
  }

  function NonEmpty(chunks: seq<seq<byte>>): seq<seq<byte>> {
    if chunks == [] then []
    else if chunks[0] == [] then NonEmpty(chunks[1..])
    else [chunks[0]] + NonEmpty(chunks[1..])
  }

  function Signature(t: ContentType): seq<byte> {
    match t
    case Text => []
    case Png => [0x89, 0x50, 0x4E, 0x47, 0x0D, 0x0A, 0x1A, 0x0A]
    case Jpeg => [0xFF, 0xD8, 0xFF]
    case Pdf => [0x25, 0x50, 0x44, 0x46, 0x2D]
  }

  /** What the content as a whole has to satisfy. */
  ghost predicate Acceptable(t: ContentType, content: seq<byte>, max: nat) {
    |content| <= max && (t == Text ==> 0 !in content && IsUtf8(content))
  }

  /** The bytes that tell the type, as the formats define them; any bytes will do for text. */
  lemma SignatureByValue(t: ContentType, first: seq<byte>)
    ensures Signature(t) <= first <==>
            match t
            case Text => true
            case Png => |first| >= 8 && first[..8] == [137, 80, 78, 71, 13, 10, 26, 10]
            case Jpeg => |first| >= 3 && first[..3] == [255, 216, 255]
            case Pdf => |first| >= 5 && first[..5] == [37, 80, 68, 70, 45]
  {
  }

  /** What has arrived leaves room for acceptable content. */
  ghost predicate Promising(t: ContentType, content: seq<byte>, max: nat) {
    |content| <= max && (t == Text ==> 0 !in content && Continuable(content))
  }

  lemma PromisingPrefix(t: ContentType, max: nat, chunks: seq<seq<byte>>, i: nat, j: nat)
    requires i <= j <= |chunks|
    ensures |Concat(chunks[..i])| <= |Concat(chunks[..j])|
    ensures Promising(t, Concat(chunks[..j]), max) ==> Promising(t, Concat(chunks[..i]), max)
    decreases j
  {
    if i < j {
      PromisingPrefix(t, max, chunks, i, j - 1);
      assert chunks[..j] == chunks[..j - 1] + [chunks[j - 1]];
      ConcatAppend(chunks[..j - 1], chunks[j - 1]);
      var before, chunk := Concat(chunks[..j - 1]), chunks[j - 1];
      if Continuable(before + chunk) {
        var more :| IsUtf8(before + chunk + more);
        assert before + (chunk + more) == before + chunk + more;
        assert Continuable(before);
      }
    }
  }

  // ---- the stream of checked chunks ------------------------------------------------------------

  datatype Progress = Progress(total: nat, decoded: Scanned)

  datatype Verdict = Pass(next: Progress) | Reject(error: Error)

  const NOTHING := Progress(0, Pending([]))

  /** The checks of one chunk, in order: size, then NUL, then decoding. */
  function CheckChunk(t: ContentType, max: nat, p: Progress, chunk: seq<byte>): Verdict {
    var total := p.total + |chunk|;
    if total > max then Reject(TooLarge)
    else if t != Text then Pass(Progress(total, p.decoded))
    else if 0 in chunk || Feed(p.decoded, chunk).Invalid? then Reject(ContentInvalid)
    else Pass(Progress(total, Feed(p.decoded, chunk)))
  }

  function CheckEnd(t: ContentType, p: Progress): Verdict {
    if t == Text && p.decoded != Pending([]) then Reject(ContentInvalid) else Pass(p)
  }

  function CheckAll(t: ContentType, max: nat, p: Progress, chunks: seq<seq<byte>>): Verdict
    decreases |chunks|
  {
    if chunks == [] then CheckEnd(t, p)
    else match CheckChunk(t, max, p, chunks[0])
         case Reject(error) => Reject(error)
         case Pass(next) => CheckAll(t, max, next, chunks[1..])
  }

  lemma FeedTwice(p: Scanned, a: seq<byte>, b: seq<byte>)
    ensures Feed(Feed(p, a), b) == Feed(p, a + b)
  {
    if p.Pending? {
      ScanSplits(p.rest + a, b);
      assert p.rest + a + b == p.rest + (a + b);
    }
  }

  /** The verdict on a stream depends on its bytes only, not on where the chunks are cut. */
  lemma {:induction false} VerdictIgnoresCuts(t: ContentType, max: nat, p: Progress, chunks: seq<seq<byte>>)
    requires p.total <= max && Settled(p.decoded)
    ensures CheckAll(t, max, p, chunks).Pass? <==>
            p.total + |Concat(chunks)| <= max
            && (t == Text ==> 0 !in Concat(chunks) && Feed(p.decoded, Concat(chunks)) == Pending([]))
    decreases |chunks|
  {
    if chunks == [] {
      assert p.decoded.Pending? ==> p.decoded.rest + [] == p.decoded.rest;
    } else {
      var chunk, rest := chunks[0], Concat(chunks[1..]);
      FeedTwice(p.decoded, chunk, rest);
      if p.decoded.Pending? {
        ScanSettles(p.decoded.rest + chunk);
      }
      if CheckChunk(t, max, p, chunk).Pass? {
        VerdictIgnoresCuts(t, max, CheckChunk(t, max, p, chunk).next, chunks[1..]);
      }
    }
  }

  lemma AcceptableStream(t: ContentType, max: nat, chunks: seq<seq<byte>>)
    ensures CheckAll(t, max, NOTHING, chunks).Pass? <==> Acceptable(t, Concat(chunks), max)
  {
    VerdictIgnoresCuts(t, max, NOTHING, chunks);
    assert [] + Concat(chunks) == Concat(chunks);
    ScanDecidesUtf8(Concat(chunks));
  }

  /** Leaving out the empty chunks, and no others, changes no byte. */
  lemma {:induction false} EmptyChunksDoNotMatter(chunks: seq<seq<byte>>)
    ensures Concat(NonEmpty(chunks)) == Concat(chunks)
    ensures [] !in NonEmpty(chunks)
    ensures forall chunk: seq<byte> :: chunk != [] ==> multiset(NonEmpty(chunks))[chunk] == multiset(chunks)[chunk]
  {
    if chunks != [] {
      EmptyChunksDoNotMatter(chunks[1..]);
      assert chunks == [chunks[0]] + chunks[1..];
      if chunks[0] != [] {
        assert NonEmpty(chunks)[1..] == NonEmpty(chunks[1..]);
      }
    }
  }

  lemma {:induction false} ConcatAppend(chunks: seq<seq<byte>>, chunk: seq<byte>)
    ensures Concat(chunks + [chunk]) == Concat(chunks) + chunk
  {
    if chunks == [] {
      assert [chunk][1..] == [] && chunk + [] == chunk;
    } else {
      assert (chunks + [chunk])[1..] == chunks[1..] + [chunk];
      ConcatAppend(chunks[1..], chunk);
    }
  }

  /** The first chunk to exceed the limit, all before it being fit to pass on. */
  ghost predicate TooLargeAt(t: ContentType, chunks: seq<seq<byte>>, k: int, max: nat)
    requires 0 <= k < |chunks|
  {
    Promising(t, Concat(chunks[..k]), max) && |Concat(chunks[..k + 1])| > max
  }

  ghost predicate Exceeds(t: ContentType, chunks: seq<seq<byte>>, max: nat, upTo: nat) {
    exists k :: 0 <= k < |chunks| && k <= upTo && TooLargeAt(t, chunks, k, max)
  }

  lemma NotYetTooLarge(t: ContentType, chunks: seq<seq<byte>>, max: nat, i: nat)
    requires i <= |chunks| && Promising(t, Concat(chunks[..i]), max)
    ensures forall k :: 0 <= k < i ==> !TooLargeAt(t, chunks, k, max)
    ensures i > 0 ==> !Exceeds(t, chunks, max, i - 1)
  {
    forall k | 0 <= k < i ensures !TooLargeAt(t, chunks, k, max) {
      PromisingPrefix(t, max, chunks, k + 1, i);
    }
  }

  /** A stream that stops at chunk `i` has not met the disk's failure, and has met the limit there or nowhere. */
  lemma StoppedAt(t: ContentType, chunks: seq<seq<byte>>, max: nat, i: nat, diskFailsAt: nat)
    requires i <= |chunks| && i <= diskFailsAt && Promising(t, Concat(chunks[..i]), max)
    requires i < |chunks| ==> !Promising(t, Concat(chunks[..i + 1]), max)
    ensures diskFailsAt < |chunks| ==> !Promising(t, Concat(chunks[..diskFailsAt + 1]), max)
    ensures Exceeds(t, chunks, max, diskFailsAt) <==> i < |chunks| && |Concat(chunks[..i + 1])| > max
  {
    NotYetTooLarge(t, chunks, max, i);
    if diskFailsAt < |chunks| {
      PromisingPrefix(t, max, chunks, i + 1, diskFailsAt + 1);
    }
    if i < |chunks| && |Concat(chunks[..i + 1])| > max {
      assert TooLargeAt(t, chunks, i, max);
    }
    forall k | i < k < |chunks| ensures !TooLargeAt(t, chunks, k, max) {
      PromisingPrefix(t, max, chunks, i + 1, k);
    }
  }

  datatype Delivery = Chunk(bytes: seq<byte>) | Exhausted | Raised(error: Error)

  /** The generator handed to storage: it hands out checked chunks one at a time. */
  class BoundedChunks {
    const contentType: ContentType
    const max: nat
    const source: seq<seq<byte>>
    var position: nat
    var progress: Progress

    constructor (contentType: ContentType, max: nat, source: seq<seq<byte>>)
      ensures this.contentType == contentType && this.max == max && this.source == source
      ensures position == 0 && progress == NOTHING && Valid()
    {
      this.contentType, this.max, this.source := contentType, max, source;
      position, progress := 0, NOTHING;
      assert source[..0] == [];
      ScanRefusesExactlyWhen([]);
    }

    /** Everything handed out so far was fit to be, and the progress is that of those bytes. */
    ghost predicate Valid()
      reads this
    {
      && position <= |source|
      && Promising(contentType, Concat(source[..position]), max)
      && progress.total == |Concat(source[..position])|
      && (contentType == Text ==> progress.decoded == Scan(Concat(source[..position])))
    }

    /** The verdict on everything still to come. */
    function Outlook(): Verdict
      requires Valid()
      reads this
    {
      CheckAll(contentType, max, progress, source[position..])
    }

    method Next() returns (d: Delivery)
      requires Valid()
      modifies this
      ensures Valid()
      ensures d.Chunk? ==>
                old(position) < |source| && d.bytes == source[old(position)] && position == old(position) + 1
                && Outlook() == old(Outlook())
      ensures d.Exhausted? ==> position == old(position) == |source| && old(Outlook()).Pass?
      ensures d.Raised? ==> old(Outlook()) == Reject(d.error) && position == old(position)
      ensures d.Raised? && position < |source| ==>
                && !Promising(contentType, Concat(source[..position + 1]), max)
                && d.error == if |Concat(source[..position + 1])| > max then TooLarge else ContentInvalid
      ensures d.Raised? && position == |source| ==>
                contentType == Text && !IsUtf8(Concat(source)) && d.error == ContentInvalid
    {
      assert source[..|source|] == source;
      ghost var sofar := Concat(source[..position]);
      ScanDecidesUtf8(sofar);
      if position < |source| {
        assert source[..position + 1] == source[..position] + [source[position]];
        ConcatAppend(source[..position], source[position]);
        ScanSplits(sofar, source[position]);
        ScanRefusesExactlyWhen(sofar + source[position]);
      }
      if position == |source| {
        var verdict := CheckEnd(contentType, progress);
        return if verdict.Reject? then Raised(verdict.error) else Exhausted;
      }
      var chunk := source[position];
      assert source[position..][1..] == source[position + 1..];
      var verdict := CheckChunk(contentType, max, progress, chunk);
      match verdict
      case Reject(error) => d := Raised(error);
      case Pass(next) =>
        progress := next;
        position := position + 1;
        d := Chunk(chunk);
    }
  }

  /** Objects by key. An object appears when it is created and is filled as it is written. */
  class LocalAttachmentStorage {
    var objects: map<string, seq<byte>>

    constructor ()
      ensures objects == map[]
    {
      objects := map[];
    }

    /** Exclusive creation, a write per chunk, and removal of the object when anything fails. The disk
        fails at the write numbered `diskFailsAt`, if the stream gets that far. */
    method Write(key: string, chunks: BoundedChunks, diskFailsAt: nat) returns (size: nat, error: Option<Error>)
      requires chunks.Valid() && chunks.position == 0
      modifies this, chunks
      ensures error.None? <==> key !in old(objects) && old(chunks.Outlook()).Pass? && |chunks.source| <= diskFailsAt
      ensures error.None? ==> objects == old(objects)[key := Concat(chunks.source)] && size == |Concat(chunks.source)|
      ensures error.Some? ==> objects == old(objects)
      ensures error == Some(KeyExists) <==> key in old(objects)
      ensures error == Some(DiskFailure) <==>
              && key !in old(objects) && diskFailsAt < |chunks.source|
              && Promising(chunks.contentType, Concat(chunks.source[..diskFailsAt + 1]), chunks.max)
      ensures error == Some(TooLarge) <==>
              key !in old(objects)
              && Exceeds(chunks.contentType, chunks.source, chunks.max, diskFailsAt)
      ensures error.Some? ==> error.value in {KeyExists, DiskFailure, TooLarge, ContentInvalid}
    {
      hide CheckAll, Promising, Exceeds;
      size := 0;
      if key in objects {
        return 0, Some(KeyExists);
      }
      ghost var before, outlook := objects, chunks.Outlook();
      objects := objects[key := []];
      var i := 0;
      while true
        invariant chunks.Valid() && chunks.position == i <= |chunks.source| && i <= diskFailsAt
        invariant chunks.Outlook() == outlook
        invariant objects == before[key := Concat(chunks.source[..i])]
        invariant size == |Concat(chunks.source[..i])|
        decreases |chunks.source| - i
      {
        var d := chunks.Next();
        match d {
          case Exhausted =>
            assert chunks.source[..i] == chunks.source;
            StoppedAt(chunks.contentType, chunks.source, chunks.max, i, diskFailsAt);
            return size, None;
          case Raised(e) =>
            assert i == |chunks.source| ==> chunks.source[..i] == chunks.source;
            StoppedAt(chunks.contentType, chunks.source, chunks.max, i, diskFailsAt);
            objects := objects - {key};
            assert objects == before;
            return 0, Some(e);
          case Chunk(bytes) =>
            if i == diskFailsAt {
              NotYetTooLarge(chunks.contentType, chunks.source, chunks.max, i + 1);
              objects := objects - {key};
              assert objects == before;
              return 0, Some(DiskFailure);
            }
            ConcatAppend(chunks.source[..i], bytes);
            assert chunks.source[..i + 1] == chunks.source[..i] + [bytes];
            objects := objects[key := objects[key] + bytes];
            size := size + |bytes|;
            i := i + 1;
        }
      }
    }

    method Delete(key: string)
      modifies this
      ensures objects == old(objects) - {key}
    {
      objects := objects - {key};
    }
  }

  class AttachmentService {
    const storage: LocalAttachmentStorage
    const max: nat
    var rows: map<int, Row>

    constructor (storage: LocalAttachmentStorage, max: nat)
      ensures this.storage == storage && this.max == max && rows == map[]
    {
      this.storage, this.max, rows := storage, max, map[];
    }

    /** All or nothing: the upload succeeds exactly if the first chunk is not empty and carries the type's
        signature, the bytes put together are acceptable, and neither key, disk nor commit gets in the
        way. Then the stored object is those bytes and the row holds their number; otherwise no object
        and no row has changed. */
    method Upload(id: int, key: string, contentType: ContentType, chunks: seq<seq<byte>>, diskFailsAt: nat,
                  commitFails: bool)
      returns (r: Outcome)
      requires id !in rows
      modifies this, storage
      ensures r.Stored? <==>
              && chunks != [] && chunks[0] != [] && Signature(contentType) <= chunks[0]
              && Acceptable(contentType, Concat(chunks), max)
              && key !in old(storage.objects) && |NonEmpty(chunks)| <= diskFailsAt && !commitFails
      ensures r.Stored? ==>
                && r.row == Row(key, |Concat(chunks)|)
                && rows == old(rows)[id := r.row]
                && storage.objects == old(storage.objects)[key := Concat(chunks)]
      ensures r.Failed? ==> rows == old(rows) && storage.objects == old(storage.objects)
      ensures r == Failed(EmptyFile) <==> chunks == [] || chunks[0] == []
      ensures r.Failed? && chunks != [] && chunks[0] != [] && !(Signature(contentType) <= chunks[0]) ==>
                r == Failed(ContentInvalid)
      ensures chunks != [] && chunks[0] != [] && Signature(contentType) <= chunks[0] ==>
                var sent := NonEmpty(chunks);
                && (r == Failed(KeyExists) <==> key in old(storage.objects))
                && (r == Failed(DiskFailure) <==>
                    && key !in old(storage.objects) && diskFailsAt < |sent|
                    && Promising(contentType, Concat(sent[..diskFailsAt + 1]), max))
                && (r == Failed(TooLarge) <==>
                    key !in old(storage.objects) && Exceeds(contentType, sent, max, diskFailsAt))
                && (r == Failed(CommitFailure) <==>
                    && key !in old(storage.objects) && Acceptable(contentType, Concat(chunks), max)
                    && |sent| <= diskFailsAt && commitFails)
    {
      hide CheckAll, Promising, Exceeds, Scan, IsUtf8;
      if chunks == [] || chunks[0] == [] {
        return Failed(EmptyFile);
      }
      if !(Signature(contentType) <= chunks[0]) {
        return Failed(ContentInvalid);
      }
      var stream := new BoundedChunks(contentType, max, NonEmpty(chunks));
      assert stream.source[0..] == stream.source;
      AcceptableStream(contentType, max, stream.source);
      EmptyChunksDoNotMatter(chunks);
      ghost var objects := storage.objects;
      var size, error := storage.Write(key, stream, diskFailsAt);
      if error.Some? {
        return Failed(error.value);
      }
      var row := Row(key, size);
      if commitFails {
        storage.Delete(key);
        assert storage.objects == objects;
        return Failed(CommitFailure);
      }
      rows := rows[id := row];
      r := Stored(row);
    }
  }

  /** Two uploads of the same text get the same answer however it is cut into chunks. */
  lemma CutsDoNotMatter(max: nat, a: seq<seq<byte>>, b: seq<seq<byte>>)
    requires Concat(a) == Concat(b)
    ensures CheckAll(Text, max, NOTHING, NonEmpty(a)).Pass? <==> CheckAll(Text, max, NOTHING, NonEmpty(b)).Pass?
  {
    EmptyChunksDoNotMatter(a);
    EmptyChunksDoNotMatter(b);
    AcceptableStream(Text, max, NonEmpty(a));
    AcceptableStream(Text, max, NonEmpty(b));
  }
}
