/**
 The file upload over a chunked HTTP request (main/http_file_upload.c). One transmit buffer serves
 for the part header, the file's pieces and the closing boundary in turn; each chunk takes two writes.
 A write sends all its bytes or fails, and nothing is written after a failure.
 */
module ChunkedUpload {
  import opened Bytes
  import opened ChunkedCoding
  import opened MultipartText

  // ------------------------------------------------------------------------
  // What is uploaded
  // ------------------------------------------------------------------------

  const SERVER_FILENAME_LEN := 64
  const SD_FILENAME_LENGTH := 25
  const CHUNK_SZ_STR_LEN := 16

  /** The path of the file on the card, cut to its buffer. */
  function SourceName(fnBase: seq<byte>): (t: seq<byte>)
    ensures |t| < SD_FILENAME_LENGTH
  {
    var full := Ascii("/sdcard/") + fnBase;
    if |full| < SD_FILENAME_LENGTH then full else full[..SD_FILENAME_LENGTH - 1]
  }

  /** stat of the file with this name. */
  function Stat(disk: map<seq<byte>, seq<byte>>, fnBase: seq<byte>): Option<seq<byte>> {
    var source := SourceName(fnBase);
    if source in disk then Some(disk[source]) else None
  }

  /** The name the file gets on the server. */
  function DestName(fnBase: seq<byte>): (t: seq<byte>)
    ensures |t| == 13 + |fnBase|
  {
    Ascii("AABBCCDDEEFF_") + fnBase
  }

  /** The file uploaded is the one named if and only if its name is no longer than sixteen bytes. */
  lemma SourceIsNamedIff(fnBase: seq<byte>)
    ensures SourceName(fnBase) == Ascii("/sdcard/") + fnBase <==> |fnBase| <= 16
    ensures |fnBase| >= 16 ==> SourceName(fnBase) == Ascii("/sdcard/") + fnBase[..16]
  {
    var full := Ascii("/sdcard/") + fnBase;
    assert |full| == 8 + |fnBase|;
    if |fnBase| >= 16 {
      assert full[..24] == Ascii("/sdcard/") + fnBase[..16];
    }
  }

  /** So a name of seventeen bytes is accepted, and the file it cuts to goes out under the whole name. */
  lemma LongNameSendsAnother(fnBase: seq<byte>, disk: map<seq<byte>, seq<byte>>)
    requires |fnBase| == 17
    ensures Stat(disk, fnBase) == Stat(disk, fnBase[..16])
    ensures DestName(fnBase) == Ascii("AABBCCDDEEFF_") + fnBase
  {
    SourceIsNamedIff(fnBase);
    SourceIsNamedIff(fnBase[..16]);
    assert fnBase[..16][..16] == fnBase[..16];
  }

  /** What a body is to contain. */
  function Body(fnDst: seq<byte>, file: seq<byte>): seq<byte> {
    PartHeader(fnDst) + file + Closer()
  }

  const MIN_SIZE := 116 + SERVER_FILENAME_LEN - 2 - 2 - 1

  /** The file from a position on, in pieces of n bytes. */
  function Pieces(file: seq<byte>, pos: nat, n: nat): (ps: seq<seq<byte>>)
    requires n > 0 && pos <= |file|
    decreases |file| - pos
  {
    if pos == |file| then []
    else var m := Min(n, |file| - pos); [file[pos..pos + m]] + Pieces(file, pos + m, n)
  }

  lemma {:induction false} PiecesAreTheFile(file: seq<byte>, pos: nat, n: nat)
    requires n > 0 && pos <= |file|
    ensures Flatten(Pieces(file, pos, n)) == file[pos..] && NoneEmpty(Pieces(file, pos, n))
    decreases |file| - pos
  {
    if pos < |file| {
      var m := Min(n, |file| - pos);
      PiecesAreTheFile(file, pos + m, n);
      assert Pieces(file, pos, n)[1..] == Pieces(file, pos + m, n);
      assert file[pos..] == file[pos..pos + m] + file[pos + m..];
    }
  }

  /** There are ceil(size / n) pieces: no fewer would do. */
  lemma {:induction false} PieceCount(file: seq<byte>, pos: nat, n: nat)
    requires n > 0 && pos < |file|
    ensures n * (|Pieces(file, pos, n)| - 1) < |file| - pos <= n * |Pieces(file, pos, n)|
    decreases |file| - pos
  {
    if n < |file| - pos {
      PieceCount(file, pos + n, n);
      var k := |Pieces(file, pos + n, n)|;
      assert |Pieces(file, pos, n)| == k + 1;
      assert n * (k + 1) == n * k + n && n * (k - 1) == n * k - n;
    } else {
      var m := |file| - pos;
      assert |Pieces(file, pos, n)| == 1 + |Pieces(file, pos + m, n)|;
    }
  }

  /** The chunks of one body, in order, without the empty one that ends it. */
  function Chunks(fnDst: seq<byte>, file: seq<byte>, n: nat): seq<seq<byte>>
    requires n > 0
  {
    [PartHeader(fnDst)] + Pieces(file, 0, n) + [Closer()]
  }

  // ------------------------------------------------------------------------
  // Plans of writes
  // ------------------------------------------------------------------------

  function ChunkWrites(d: seq<byte>): (w: seq<seq<byte>>) {
    [SizeLine(d), d + CRLF]
  }

  function Writes(chunks: seq<seq<byte>>): seq<seq<byte>> {
    if chunks == [] then [] else ChunkWrites(chunks[0]) + Writes(chunks[1..])
  }

  /** All writes of one body. */
  function BodyWrites(fnDst: seq<byte>, file: seq<byte>, n: nat): seq<seq<byte>>
    requires n > 0
  {
    Writes(Chunks(fnDst, file, n) + [[]])
  }

  /** The plan was carried out as far as writes succeed, and ok says whether that was all of it. */
  ghost predicate Performed(before: Socket, plan: seq<seq<byte>>, after: Socket, ok: bool) {
    var done := Min(|plan|, before.budget);
    && ok == (done == |plan|)
    && after.sent == before.sent + plan[..done]
    && after.budget == before.budget - done
  }

  /** What has been written, and how many more writes will succeed. */
  datatype Socket = Socket(sent: seq<seq<byte>>, budget: nat)

  lemma PerformedBoth(s0: Socket, a: seq<seq<byte>>, s1: Socket, b: seq<seq<byte>>, s2: Socket, ok: bool)
    requires Performed(s0, a, s1, true) && Performed(s1, b, s2, ok)
    ensures Performed(s0, a + b, s2, ok)
  {
    var done := Min(|b|, s1.budget);
    assert (a + b)[..|a| + done] == a + b[..done];
  }

  lemma PerformedFailed(s0: Socket, a: seq<seq<byte>>, s1: Socket, b: seq<seq<byte>>)
    requires Performed(s0, a, s1, false)
    ensures Performed(s0, a + b, s1, false)
  {
    assert (a + b)[..s0.budget] == a[..s0.budget];
  }

  // ------------------------------------------------------------------------
  // Writes of several chunks
  // ------------------------------------------------------------------------

  /** Writes of whole chunks one behind the other. */
  lemma {:induction false} WritesAppend(a: seq<seq<byte>>, b: seq<seq<byte>>)
    ensures Writes(a + b) == Writes(a) + Writes(b)
  {
    if a == [] {
      assert a + b == b;
    } else {
      assert (a + b)[1..] == a[1..] + b;
      WritesAppend(a[1..], b);
    }
  }

  lemma OneChunk(d: seq<byte>)
    ensures Writes([d]) == ChunkWrites(d)
  {
  }

  lemma {:induction false} HexTextLength(n: nat, k: nat, bound: nat)
    requires k > 0 && n < bound && bound == Power16(k)
    ensures |HexText(n)| <= k
    decreases k
  {
    if n >= 16 {
      assert bound == 16 * Power16(k - 1);
      HexTextLength(n / 16, k - 1, Power16(k - 1));
    }
  }

  function Power16(k: nat): nat {
    if k == 0 then 1 else 16 * Power16(k - 1)
  }

  /** The size of every chunk fits its 16-byte buffer. */
  lemma SizeLineFits(d: seq<byte>)
    requires |d| < 0x1_0000_0000
    ensures |SizeLine(d)| <= 10 < CHUNK_SZ_STR_LEN
  {
    assert Power16(4) == 0x1_0000;
    HexTextLength(|d|, 8, Power16(8));
  }

  // ------------------------------------------------------------------------
  // The uploader
  // ------------------------------------------------------------------------

  const UPLOAD_NO_ERR := 0
  const GENERIC_ESP_FAIL := -1
  const NO_SD_FILE_FOUND := -2
  const ZERO_LENGTH_FILE := -3

  datatype InitResult = Ready | NameTooLong | NoSuchFile | EmptyFile | NoMemory

  /** All that an upload needs but the server's answer, with pieces of this size. */
  predicate CanSend(fnBase: seq<byte>, disk: map<seq<byte>, seq<byte>>, heap: nat, grants: (bool, bool, bool),
                    link: Option<nat>, canOpen: bool, pieceSize: nat) {
    && |fnBase| <= 17 && Stat(disk, fnBase).Some? && Stat(disk, fnBase).value != []
    && heap >= 175 && (grants.0 || grants.1) && grants.2
    && canOpen && link.Some? && pieceSize > 0
    && link.value > |BodyWrites(DestName(fnBase), Stat(disk, fnBase).value, pieceSize)|
  }

  class Poster {
    const request: seq<byte>
    var chunkSz: nat
    var chunkDataSz: nat
    var fnDst: seq<byte>
    var file: seq<byte>
    var pos: nat
    var txBuf: array<byte>
    var szBuf: array<byte>
    var slen: nat
    var sock: Socket

    /** The buffers have the chosen sizes and the header fits. */
    ghost predicate Valid()
      reads this
    {
      && MIN_SIZE <= chunkSz < 0x1_0000_0000 && chunkDataSz == chunkSz - 3
      && txBuf.Length == chunkSz && szBuf.Length == CHUNK_SZ_STR_LEN && szBuf != txBuf
      && |fnDst| <= 30 && request != []
      && pos <= |file|
    }

    /** The transmit buffer holds this data, and has room for the line end and NUL behind it. */
    ghost predicate Loaded(data: seq<byte>)
      reads this, txBuf
    {
      slen == |data| <= chunkDataSz && slen <= txBuf.Length && txBuf[..slen] == data
    }

    /** Before an upload: the chunk size is one set_chunk_size left, or the initial one. */
    ghost predicate Sized()
      reads this
    {
      request != [] && MIN_SIZE <= chunkSz < 0x1_0000_0000 && (chunkDataSz == 0 || chunkDataSz == chunkSz - 3)
    }

    constructor ()
      ensures Sized() && chunkSz == 4096 && sock == Socket([], 0) && request == MultipartRequest()
    {
      request := MultipartRequest();
      chunkSz, chunkDataSz := 4096, 0;
      fnDst, file, pos, slen := [], [], 0, 0;
      sock := Socket([], 0);
      txBuf := new byte[0];
      szBuf := new byte[0];
    }

    /** set_chunk_size, with the largest free block of the heap. Zero asks for all of it. */
    method SetChunkSize(requested: nat, heap: nat)
      requires Sized() && requested < 0x1_0000_0000 && heap < 0x1_0000_0000
      modifies this`chunkSz, this`chunkDataSz
      ensures Sized()
      ensures heap < 175 ==> chunkSz == old(chunkSz) && chunkDataSz == old(chunkDataSz)
      ensures heap >= 175 ==> 175 <= chunkSz <= heap && chunkDataSz == chunkSz - 3
      ensures heap >= 175 && requested > 0 ==>
                chunkSz == Min(heap, if requested < 175 then 175 else requested)
      ensures heap >= 175 && requested == 0 ==> chunkSz == heap
    {
      var size := if requested == 0 then heap else requested;
      if size > heap {
        size := heap;
      }
      if MIN_SIZE > heap {
        return;
      }
      if size < MIN_SIZE {
        size := MIN_SIZE;
      }
      chunkSz := size;
      chunkDataSz := chunkSz - 3;
    }

    /**
     http_init, with what the card holds, the largest free block, and whether the allocator grants each
     of the three requests that the block could meet.
     */
    method Init(fnBase: seq<byte>, disk: map<seq<byte>, seq<byte>>, heap: nat, grants: (bool, bool, bool))
      returns (result: InitResult)
      requires Sized() && heap < 0x1_0000_0000
      modifies this`chunkSz, this`chunkDataSz, this`fnDst, this`file, this`pos, this`txBuf, this`szBuf, this`slen
      ensures Sized()
      ensures result == NameTooLong <==> |fnBase| > 17
      ensures result == NoSuchFile <==> |fnBase| <= 17 && Stat(disk, fnBase).None?
      ensures result == EmptyFile <==> |fnBase| <= 17 && Stat(disk, fnBase) == Some([])
      ensures result == NoMemory ==> !(heap >= 175 && (grants.0 || grants.1) && grants.2)
      ensures result == Ready ==> heap >= 175 && (grants.0 || grants.1) && grants.2
      ensures result == Ready ==> Valid() && fresh(txBuf) && fresh(szBuf) && pos == 0
      ensures result == Ready ==> fnDst == DestName(fnBase) && Some(file) == Stat(disk, fnBase) && file != []
      ensures result == Ready ==> 175 <= chunkSz <= heap
    {
      SetChunkSize(chunkSz, heap);
      if 8 + |fnBase| > SD_FILENAME_LENGTH {
        return NameTooLong;
      }
      fnDst := DestName(fnBase);
      var st := Stat(disk, fnBase);
      if st.None? {
        return NoSuchFile;
      }
      file, pos := st.value, 0;
      if file == [] {
        return EmptyFile;
      }
      if grants.0 && chunkSz <= heap {
        txBuf := new byte[chunkSz];
      } else {
        SetChunkSize(0, heap);
        if grants.1 && chunkSz <= heap {
          txBuf := new byte[chunkSz];
        } else {
          return NoMemory;
        }
      }
      if !grants.2 {
        return NoMemory;
      }
      szBuf := new byte[CHUNK_SZ_STR_LEN];
      slen := 0;
      result := Ready;
    }

    method Write(bytes: seq<byte>) returns (r: int)
      modifies this`sock
      ensures Performed(old(sock), [bytes], sock, r >= 0)
      ensures r == if r >= 0 then |bytes| else -1
    {
      if sock.budget == 0 {
        return -1;
      }
      sock := Socket(sock.sent + [bytes], sock.budget - 1);
      r := |bytes|;
    }

    /** _http_write_chunk_size. */
    method WriteChunkSize(ghost data: seq<byte>) returns (ok: bool)
      requires Valid() && Loaded(data)
      modifies this`sock, szBuf
      ensures Performed(old(sock), [SizeLine(data)], sock, ok)
    {
      SizeLineFits(data);
      var text := HexText(slen) + CRLF;
      CopyText(szBuf, 0, text);
      var r := Write(szBuf[..|text|]);
      ok := r == |text|;
    }

    /** _http_write_chunk_data: the line end is put behind the data, and both are sent. */
    method WriteChunkData(ghost data: seq<byte>) returns (ok: bool)
      requires Valid() && Loaded(data)
      modifies this`sock, this`slen, txBuf
      ensures Performed(old(sock), [data + CRLF], sock, ok)
    {
      CopyText(txBuf, slen, CRLF);
      slen := slen + 2;
      assert txBuf[..slen] == data + CRLF;
      var r := Write(txBuf[..slen]);
      ok := r >= 0;
      if ok {
        slen := 0;
      }
    }

    /** http_write_chunk. */
    method WriteChunk(ghost data: seq<byte>) returns (ok: bool)
      requires Valid() && Loaded(data)
      modifies this`sock, this`slen, txBuf, szBuf
      ensures Performed(old(sock), ChunkWrites(data), sock, ok)
    {
      assert ChunkWrites(data) == [SizeLine(data)] + [data + CRLF];
      ok := WriteChunkSize(data);
      if !ok {
        PerformedFailed(old(sock), [SizeLine(data)], sock, [data + CRLF]);
        return;
      }
      ghost var s1 := sock;
      ok := WriteChunkData(data);
      PerformedBoth(old(sock), [SizeLine(data)], s1, [data + CRLF], sock, ok);
    }

    /** snprintf into the transmit buffer: the length kept is that of the whole text. */
    method Print(text: seq<byte>)
      requires Valid()
      modifies this`slen, txBuf
      ensures slen == |text| && (|text| < chunkDataSz ==> Loaded(text))
    {
      CopyText(txBuf, 0, if |text| < chunkDataSz then text else text[..chunkDataSz - 1]);
      slen := |text|;
    }

    /** fread: as much as the buffer's data part holds, or what is left of the file. */
    method ReadPiece() returns (ghost piece: seq<byte>)
      requires Valid()
      modifies this`slen, this`pos, txBuf
      ensures Valid() && Loaded(piece)
      ensures slen == Min(chunkDataSz, |file| - old(pos)) && pos == old(pos) + slen
      ensures piece == file[old(pos)..pos]
    {
      slen := Min(chunkDataSz, |file| - pos);
      var bytes := file[pos..pos + slen];
      CopyText(txBuf, 0, bytes);
      pos := pos + slen;
      piece := bytes;
      assert txBuf[..slen] == txBuf[0..0 + slen];
    }

    /** http_write_file_chunked, on a file just opened. */
    method WriteFileChunked() returns (ok: bool, ghost packetsSent: nat)
      requires Valid() && pos == 0 && file != []
      modifies this`sock, this`slen, this`pos, txBuf, szBuf
      ensures Valid()
      ensures Performed(old(sock), Writes(Pieces(file, 0, chunkDataSz)), sock, ok)
      ensures ok ==> packetsSent == |Pieces(file, 0, chunkDataSz)|
    {
      var flen: int := |file|;
      ghost var done: seq<seq<byte>> := [];
      packetsSent := 0;
      while true
        invariant Valid() && flen == |file| - pos > 0
        invariant Performed(old(sock), Writes(done), sock, true)
        invariant done + Pieces(file, pos, chunkDataSz) == Pieces(file, 0, chunkDataSz)
        invariant packetsSent == |done|
        decreases flen
      {
        ghost var s1, left := sock, Pieces(file, pos, chunkDataSz);
        ghost var piece := ReadPiece();
        flen := flen - slen;
        assert left == [piece] + Pieces(file, pos, chunkDataSz);
        ok := WriteChunk(piece);
        AfterChunk(old(sock), done, s1, piece, Pieces(file, pos, chunkDataSz), sock, ok);
        if !ok {
          return;
        }
        done := done + [piece];
        packetsSent := packetsSent + 1;
        if flen <= 0 {
          assert done + Pieces(file, pos, chunkDataSz) == done;
          return;
        }
      }
    }

    /** _http_write_body_closer: the closing boundary, then the empty chunk. */
    method WriteBodyCloser() returns (ok: bool)
      requires Valid()
      modifies this`sock, this`slen, txBuf, szBuf
      ensures Performed(old(sock), Writes([Closer(), []]), sock, ok)
    {
      OneChunk(Closer());
      OneChunk([]);
      WritesAppend([Closer()], [[]]);
      assert [Closer()] + [[]] == [Closer(), []];
      Print(Closer());
      ok := WriteChunk(Closer());
      if !ok {
        PerformedFailed(old(sock), ChunkWrites(Closer()), sock, ChunkWrites([]));
        return;
      }
      ghost var s1 := sock;
      txBuf[0] := 0;
      slen := 0;
      ok := WriteChunk([]);
      PerformedBoth(old(sock), ChunkWrites(Closer()), s1, ChunkWrites([]), sock, ok);
    }

    /** The steps of http_upload_file_from_sd once the file is there: it succeeds only on code 0. */
    method SendFile(link: Option<nat>, canOpen: bool, rcode: int) returns (err: int)
      requires Valid() && pos == 0 && file != []
      modifies this`sock, this`slen, this`pos, txBuf, szBuf
      ensures err == UPLOAD_NO_ERR || err == GENERIC_ESP_FAIL
      ensures err == UPLOAD_NO_ERR <==>
                link.Some? && canOpen && rcode == 0 && link.value > |BodyWrites(fnDst, file, chunkDataSz)|
      ensures link.Some? && canOpen && link.value > |BodyWrites(fnDst, file, chunkDataSz)| ==>
                Delivered(request, sock.sent, Body(fnDst, file))
      ensures link.None? ==> sock == old(sock)
      ensures link.Some? && (!canOpen || link.value <= |BodyWrites(fnDst, file, chunkDataSz)|) ==>
                CutShort(request, sock.sent)
    {
      if link.None? {
        return GENERIC_ESP_FAIL;
      }
      sock := Socket([], link.value);
      ghost var s0 := sock;
      var r := Write(request);
      ghost var s1 := sock;
      if r != |request| {
        return GENERIC_ESP_FAIL;
      }
      var ok := WriteBody(canOpen);
      if !ok {
        RequestThenPart(request, s0, s1, sock, fnDst, file, chunkDataSz, canOpen);
        return GENERIC_ESP_FAIL;
      }
      RequestThenBody(request, s0, s1, sock, fnDst, file, chunkDataSz);
      err := if rcode != 0 then GENERIC_ESP_FAIL else UPLOAD_NO_ERR;
    }

    /**
     http_upload_file_from_sd, with the number of writes the connection will carry, if there is one,
     whether the file can be opened, and the response code read from the server.
     */
    method UploadFile(fnBase: seq<byte>, disk: map<seq<byte>, seq<byte>>, heap: nat, grants: (bool, bool, bool),
                      link: Option<nat>, canOpen: bool, rcode: int)
      returns (err: int)
      requires Sized() && heap < 0x1_0000_0000
      modifies this
      ensures err == -3 <==> |fnBase| <= 17 && Stat(disk, fnBase) == Some([])
      ensures err == -2 <==> |fnBase| <= 17 && Stat(disk, fnBase).None?
      ensures err == 0 || err == -1 || err == -2 || err == -3
      ensures CanSend(fnBase, disk, heap, grants, link, canOpen, chunkDataSz) && rcode == 0 <==> err == 0
      ensures CanSend(fnBase, disk, heap, grants, link, canOpen, chunkDataSz) ==>
                Delivered(request, sock.sent, Body(DestName(fnBase), Stat(disk, fnBase).value))
      ensures || sock == old(sock)
              || CutShort(request, sock.sent)
              || (Stat(disk, fnBase).Some? &&
                  Delivered(request, sock.sent, Body(DestName(fnBase), Stat(disk, fnBase).value)))
    {
      var ready := Init(fnBase, disk, heap, grants);
      if ready == NoSuchFile {
        err := NO_SD_FILE_FOUND;
      } else if ready == EmptyFile {
        err := ZERO_LENGTH_FILE;
      } else if ready != Ready {
        err := GENERIC_ESP_FAIL;
      } else {
        err := SendFile(link, canOpen, rcode);
      }
    }

    /** http_write_body. The file is opened between the header and the first piece. */
    method WriteBody(canOpen: bool) returns (ok: bool)
      requires Valid() && pos == 0 && file != []
      modifies this`sock, this`slen, this`pos, txBuf, szBuf
      ensures Valid()
      ensures canOpen ==> Performed(old(sock), BodyWrites(fnDst, file, chunkDataSz), sock, ok)
      ensures !canOpen ==> !ok && exists sent :: Performed(old(sock), ChunkWrites(PartHeader(fnDst)), sock, sent)
    {
      ghost var s0, header, pieces := sock, [PartHeader(fnDst)], Pieces(file, 0, chunkDataSz);
      OneChunk(PartHeader(fnDst));
      Print(PartHeader(fnDst));
      ok := WriteChunk(PartHeader(fnDst));
      ghost var s1 := sock;
      if !ok || !canOpen {
        if !ok {
          AfterPart(s0, header, s1, pieces + [Closer(), []], s1, false, false);
          PlanOfBody(fnDst, file, chunkDataSz);
        }
        return false;
      }
      ghost var packetsSent;
      ok, packetsSent := WriteFileChunked();
      ghost var s2 := sock;
      AfterPart(s0, header, s1, pieces, s2, true, ok);
      PlanOfBody(fnDst, file, chunkDataSz);
      if !ok {
        AfterPart(s0, header + pieces, s2, [Closer(), []], s2, false, false);
        return;
      }
      ok := WriteBodyCloser();
      AfterPart(s0, header + pieces, s2, [Closer(), []], sock, true, ok);
    }
  }

  lemma PlanOfBody(fnDst: seq<byte>, file: seq<byte>, n: nat)
    requires n > 0
    ensures var header, pieces := [PartHeader(fnDst)], Pieces(file, 0, n);
            && BodyWrites(fnDst, file, n) == Writes(header + pieces + [Closer(), []])
            && header + pieces + [Closer(), []] == header + (pieces + [Closer(), []])
  {
    var header, pieces := [PartHeader(fnDst)], Pieces(file, 0, n);
    assert Chunks(fnDst, file, n) + [[]] == header + pieces + [Closer(), []];
  }

  /** The request went out, and what follows it decodes to this body, with nothing left over. */
  ghost predicate Delivered(request: seq<byte>, sent: seq<seq<byte>>, body: seq<byte>) {
    sent != [] && sent[0] == request && Decode(Flatten(sent[1..])) == Some((body, []))
  }

  /** Nothing went out, or the request and then what decodes to no body. */
  ghost predicate CutShort(request: seq<byte>, sent: seq<seq<byte>>) {
    sent == [] || (sent[0] == request && Decode(Flatten(sent[1..])).None?)
  }

  /** After the request, a complete body is what the server decodes. */
  lemma RequestThenBody(request: seq<byte>, s0: Socket, s1: Socket, s2: Socket, fnDst: seq<byte>, file: seq<byte>, n: nat)
    requires n > 0 && s0.sent == []
    requires Performed(s0, [request], s1, true) && Performed(s1, BodyWrites(fnDst, file, n), s2, true)
    ensures Delivered(request, s2.sent, Body(fnDst, file))
  {
    var plan := BodyWrites(fnDst, file, n);
    assert s1.sent == [request];
    assert s2.sent == [request] + plan && s2.sent[1..] == plan;
    UploadDecodes(fnDst, file, n);
  }

  /** The part header alone, or less, is the beginning of every body that starts with it. */
  lemma HeaderIsBeginning(fnDst: seq<byte>, file: seq<byte>, n: nat, k: nat)
    requires n > 0 && k <= 2
    ensures |BodyWrites(fnDst, file, n)| > 2
    ensures BodyWrites(fnDst, file, n)[..k] == ChunkWrites(PartHeader(fnDst))[..k]
  {
    var chunks := Chunks(fnDst, file, n) + [[]];
    assert chunks[0] == PartHeader(fnDst) && |chunks[1..]| > 0;
    assert Writes(chunks) == ChunkWrites(chunks[0]) + Writes(chunks[1..]);
  }

  /** After the request, a body cut short is not decoded. */
  lemma RequestThenPart(request: seq<byte>, s0: Socket, s1: Socket, s2: Socket, fnDst: seq<byte>, file: seq<byte>, n: nat,
                        canOpen: bool)
    requires n > 0 && s0.sent == [] && Performed(s0, [request], s1, true)
    requires canOpen ==> Performed(s1, BodyWrites(fnDst, file, n), s2, false)
    requires !canOpen ==> exists sent :: Performed(s1, ChunkWrites(PartHeader(fnDst)), s2, sent)
    ensures CutShort(request, s2.sent)
  {
    assert s1.sent == [request];
    var plan := BodyWrites(fnDst, file, n);
    var k := if canOpen then s1.budget else Min(2, s1.budget);
    if !canOpen {
      HeaderIsBeginning(fnDst, file, n, k);
    }
    assert s2.sent == [request] + plan[..k] && s2.sent[1..] == plan[..k];
    FailedUploadIsIncomplete(fnDst, file, n, k);
  }

  /** The chunks of one part and, if they went out, those of the next. */
  lemma AfterPart(s0: Socket, a: seq<seq<byte>>, s1: Socket, b: seq<seq<byte>>, s2: Socket, sent: bool, ok: bool)
    requires Performed(s0, Writes(a), s1, sent)
    requires if sent then Performed(s1, Writes(b), s2, ok) else s2 == s1 && !ok
    ensures Performed(s0, Writes(a + b), s2, ok)
  {
    WritesAppend(a, b);
    if sent {
      PerformedBoth(s0, Writes(a), s1, Writes(b), s2, ok);
    } else {
      PerformedFailed(s0, Writes(a), s1, Writes(b));
    }
  }

  /** One more chunk carried out, or the whole plan given up at it. */
  lemma AfterChunk(s0: Socket, done: seq<seq<byte>>, s1: Socket, d: seq<byte>, left: seq<seq<byte>>, s2: Socket, ok: bool)
    requires Performed(s0, Writes(done), s1, true) && Performed(s1, ChunkWrites(d), s2, ok)
    ensures Performed(s0, Writes(done + [d]), s2, ok)
    ensures !ok ==> Performed(s0, Writes(done + ([d] + left)), s2, false)
    ensures done + ([d] + left) == done + [d] + left
  {
    OneChunk(d);
    WritesAppend(done, [d]);
    PerformedBoth(s0, Writes(done), s1, ChunkWrites(d), s2, ok);
    assert done + ([d] + left) == done + [d] + left;
    WritesAppend(done + [d], left);
    if !ok {
      PerformedFailed(s0, Writes(done + [d]), s2, Writes(left));
    }
  }

  /** sprintf of a text at a position, with its NUL. */
  method CopyText(buf: array<byte>, at: nat, text: seq<byte>)
    requires at + |text| < buf.Length
    modifies buf
    ensures buf[..at] == old(buf[..at]) && buf[at..at + |text|] == text && buf[at + |text|] == 0
  {
    for i := 0 to |text|
      invariant buf[..at] == old(buf[..at])
      invariant forall k :: 0 <= k < i ==> buf[at + k] == text[k]
    {
      buf[at + i] := text[i];
    }
    buf[at + |text|] := 0;
  }

  // ------------------------------------------------------------------------
  // What the server receives
  // ------------------------------------------------------------------------

  lemma {:induction false} FlattenAppend(a: seq<seq<byte>>, b: seq<seq<byte>>)
    ensures Flatten(a + b) == Flatten(a) + Flatten(b)
  {
    if a == [] {
      assert a + b == b;
    } else {
      assert (a + b)[1..] == a[1..] + b;
      FlattenAppend(a[1..], b);
    }
  }

  lemma FlattenChunk(d: seq<byte>)
    ensures Flatten(ChunkWrites(d)) == ChunkText(d)
  {
    var data := d + CRLF;
    var second: seq<seq<byte>> := [data];
    assert ChunkWrites(d)[1..] == second && |second[1..]| == 0;
    assert Flatten(second) == data;
  }

  /** The writes of the chunks and of the empty one put the coded body on the wire. */
  lemma {:induction false} WritesAreEncoded(chunks: seq<seq<byte>>)
    ensures Flatten(Writes(chunks + [[]])) == Encode(chunks)
  {
    if chunks == [] {
      assert chunks + [[]] == [[]];
      OneChunk([]);
      FlattenChunk([]);
    } else {
      assert (chunks + [[]])[1..] == chunks[1..] + [[]];
      WritesAreEncoded(chunks[1..]);
      FlattenAppend(ChunkWrites(chunks[0]), Writes(chunks[1..] + [[]]));
      FlattenChunk(chunks[0]);
    }
  }

  lemma {:induction false} ChunksAreTheBody(fnDst: seq<byte>, file: seq<byte>, n: nat)
    requires n > 0
    ensures NoneEmpty(Chunks(fnDst, file, n))
    ensures Flatten(Chunks(fnDst, file, n)) == PartHeader(fnDst) + file + Closer()
  {
    PiecesAreTheFile(file, 0, n);
    FlattenAppend([PartHeader(fnDst)] + Pieces(file, 0, n), [Closer()]);
    FlattenAppend([PartHeader(fnDst)], Pieces(file, 0, n));
    assert file[0..] == file;
  }

  /** A complete upload decodes to the header, the file and the closing boundary, and nothing is left over. */
  lemma {:induction false} UploadDecodes(fnDst: seq<byte>, file: seq<byte>, n: nat)
    requires n > 0
    ensures Decode(Flatten(BodyWrites(fnDst, file, n))) == Some((PartHeader(fnDst) + file + Closer(), []))
  {
    var chunks := Chunks(fnDst, file, n);
    ChunksAreTheBody(fnDst, file, n);
    WritesAreEncoded(chunks);
    EncodeRoundTrip(chunks, []);
    assert Encode(chunks) + [] == Encode(chunks);
  }

  lemma {:induction false} NoWriteIsEmpty(chunks: seq<seq<byte>>)
    ensures NoneEmpty(Writes(chunks))
  {
    if chunks != [] {
      NoWriteIsEmpty(chunks[1..]);
    }
  }

  /** An upload whose writes fail before the last leaves no complete body behind, only its beginning. */
  lemma {:induction false} FailedUploadIsIncomplete(fnDst: seq<byte>, file: seq<byte>, n: nat, k: nat)
    requires n > 0 && k < |BodyWrites(fnDst, file, n)|
    ensures var sent, all := Flatten(BodyWrites(fnDst, file, n)[..k]), Flatten(BodyWrites(fnDst, file, n));
            && |sent| < |all| && sent == all[..|sent|]
            && Decode(sent).None?
  {
    var chunks := Chunks(fnDst, file, n);
    var plan := BodyWrites(fnDst, file, n);
    NoWriteIsEmpty(chunks + [[]]);
    assert plan[..k] + plan[k..] == plan;
    FlattenAppend(plan[..k], plan[k..]);
    assert Flatten(plan[k..]) == plan[k] + Flatten(plan[k..][1..]);
    ChunksAreTheBody(fnDst, file, n);
    WritesAreEncoded(chunks);
    CutBodyIsIncomplete(chunks, Flatten(plan[..k]));
  }
}
