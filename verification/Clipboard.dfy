/** Clipboard image transfer: headers as framed messages, each followed by raw bytes
    (`src/host/clipboard.rs`, `src/clipboard_client.rs`). */
module Clipboard {
  import opened Wrappers
  import opened Utf8
  import opened ControlChannel

  type U32 = n: int | 0 <= n < 0x1_0000_0000
  type U64 = n: int | 0 <= n < 0x1_0000_0000_0000_0000

  const U64_MAX: U64 := 0xFFFF_FFFF_FFFF_FFFF
  const MAX_BATCH_IMAGES: nat := 16
  const MAX_IMAGE_BYTES: nat := 20 * 1024 * 1024
  const MAX_BATCH_BYTES: nat := 64 * 1024 * 1024

  datatype Format = Auto | Png | Jpeg

  /** The control messages a clipboard client tells apart. */
  datatype Wire =
    | BatchReady(count: U32) | Ready(format: Format, size: U64) | HostError(error: string) | Unrelated(tag: nat)

  datatype Image = Image(format: Format, bytes: seq<Byte>)

  datatype Reason = BadCount | ExpectedReady | BadFormat | BadSize | BadSignature

  /** `Protocol` covers every framing error, `Io` an end of stream inside an image. */
  datatype PasteError = Protocol | Io | Host(error: string) | InvalidResponse(reason: Reason)

  const PNG_SIGNATURE: seq<Byte> := [0x89, 0x50, 0x4E, 0x47, 0x0D, 0x0A, 0x1A, 0x0A]
  const JPEG_SIGNATURE: seq<Byte> := [0xFF, 0xD8, 0xFF]

  predicate SignatureMatches(format: Format, bytes: seq<Byte>) {
    match format
    case Png => PNG_SIGNATURE <= bytes
    case Jpeg => JPEG_SIGNATURE <= bytes
    case Auto => false
  }

  /** What the formats begin with: the signatures of section 3.1 of RFC 2083 and of JPEG's first marker. */
  lemma SignaturesAre(bytes: seq<Byte>)
    ensures SignatureMatches(Png, bytes) <==> |bytes| >= 8 && bytes[..8] == [137, 80, 78, 71, 13, 10, 26, 10]
    ensures SignatureMatches(Jpeg, bytes) <==> |bytes| >= 3 && bytes[0] == 255 && bytes[1] == 216 && bytes[2] == 255
    ensures !SignatureMatches(Auto, bytes) && !(SignatureMatches(Png, bytes) && SignatureMatches(Jpeg, bytes))
  {
  }

  predicate FormatAllowed(requested: Format, format: Format) {
    format != Auto && (requested == Auto || requested == format)
  }

  function SaturatingAdd(a: U64, b: U64): U64 {
    if a + b > U64_MAX then U64_MAX else a + b
  }

  // ---- Writing ----------------------------------------------------------------

  function Header(image: Image): Wire {
    Ready(image.format, |image.bytes| % 0x1_0000_0000_0000_0000)
  }

  /** The bytes of the images' headers and contents, or None if a header is over the limit. */
  function ImageBytes(codec: Codec<Wire>, images: seq<Image>): Option<seq<Byte>> {
    if images == [] then Some([])
    else
      var head, rest := Frame(codec, Header(images[0])), ImageBytes(codec, images[1..]);
      if head.None? || rest.None? then None else Some(head.value + images[0].bytes + rest.value)
  }

  /** All a transfer puts on the wire; a single image is announced without a count. */
  function TransferBytes(codec: Codec<Wire>, images: seq<Image>): Option<seq<Byte>> {
    var body := ImageBytes(codec, images);
    if |images| <= 1 then body
    else
      var head := Frame(codec, BatchReady(|images| % 0x1_0000_0000));
      if head.None? || body.None? then None else Some(head.value + body.value)
  }

  lemma {:induction false} ImageBytesAppend(codec: Codec<Wire>, images: seq<Image>, image: Image)
    requires ImageBytes(codec, images).Some? && Frame(codec, Header(image)).Some?
    ensures ImageBytes(codec, images + [image])
         == Some(ImageBytes(codec, images).value + (Frame(codec, Header(image)).value + image.bytes))
  {
    var added := Frame(codec, Header(image)).value + image.bytes;
    var whole := images + [image];
    if images == [] {
      assert whole[1..] == [] && ImageBytes(codec, whole[1..]) == Some([]);
      assert added + [] == added && [] + added == added;
    } else {
      assert whole[1..] == images[1..] + [image] && whole[0] == images[0];
      ImageBytesAppend(codec, images[1..], image);
      var first := Frame(codec, Header(images[0])).value + images[0].bytes;
      var rest := ImageBytes(codec, images[1..]).value;
      assert first + (rest + added) == (first + rest) + added;
    }
  }

  lemma {:induction false} ImageBytesPrefix(codec: Codec<Wire>, images: seq<Image>, n: nat)
    requires n < |images| && Frame(codec, Header(images[n])).None?
    ensures ImageBytes(codec, images).None?
  {
    if n > 0 { ImageBytesPrefix(codec, images[1..], n - 1); }
  }

  method WriteImage(codec: Codec<Wire>, writer: Writer, image: Image) returns (r: Result<(), ControlError>)
    modifies writer
    ensures r.Ok? <==> Frame(codec, Header(image)).Some?
    ensures r.Ok? ==> writer.written == old(writer.written) + (Frame(codec, Header(image)).value + image.bytes)
  {
    ghost var start := writer.written;
    r := WriteMessage(codec, writer, Header(image));
    if r.Ok? {
      writer.WriteAll(image.bytes);
      assert start + Frame(codec, Header(image)).value + image.bytes
          == start + (Frame(codec, Header(image)).value + image.bytes);
    }
  }

  method WriteEach(codec: Codec<Wire>, writer: Writer, images: seq<Image>) returns (r: Result<(), ControlError>)
    modifies writer
    ensures r.Ok? <==> ImageBytes(codec, images).Some?
    ensures r.Ok? ==> writer.written == old(writer.written) + ImageBytes(codec, images).value
  {
    hide Frame;
    ghost var start, body := writer.written, [];
    for i := 0 to |images|
      invariant ImageBytes(codec, images[..i]) == Some(body)
      invariant writer.written == start + body
    {
      r := WriteImage(codec, writer, images[i]);
      if r.Err? {
        ImageBytesPrefix(codec, images, i);
        return;
      }
      ghost var added := Frame(codec, Header(images[i])).value + images[i].bytes;
      ImageBytesAppend(codec, images[..i], images[i]);
      assert images[..i + 1] == images[..i] + [images[i]];
      assert start + body + added == start + (body + added);
      body := body + added;
    }
    assert images[..|images|] == images;
    return Ok(());
  }

  method WriteImages(codec: Codec<Wire>, writer: Writer, images: seq<Image>) returns (r: Result<(), ControlError>)
    modifies writer
    ensures r.Ok? <==> TransferBytes(codec, images).Some?
    ensures r.Ok? ==> writer.written == old(writer.written) + TransferBytes(codec, images).value
  {
    hide Frame, ImageBytes;
    ghost var start := writer.written;
    if |images| > 1 {
      var count := BatchReady(|images| % 0x1_0000_0000);
      r := WriteMessage(codec, writer, count);
      if r.Err? {
        return;
      }
    }
    r := WriteEach(codec, writer, images);
    if r.Ok? && |images| > 1 {
      ghost var first := Frame(codec, BatchReady(|images| % 0x1_0000_0000)).value;
      ghost var body := ImageBytes(codec, images).value;
      assert start + first + body == start + (first + body);
    }
  }

  // ---- Reading, on the flat stream ------------------------------------------------

  /** The result, whether every header line looked at is ASCII, and what is left of the stream where
      reading ended. */
  datatype Received = Received(result: Result<seq<Image>, PasteError>, asciiHeaders: bool, rest: seq<Byte>)

  datatype Body = Body(image: Image, total: U64, rest: seq<Byte>)

  /** One image, once its header has been read. */
  function ReadBody(requested: Format, header: Wire, total: U64, s: seq<Byte>): Result<Body, PasteError> {
    match header
    case HostError(error) => Err(Host(error))
    case Ready(format, size) =>
      var total' := SaturatingAdd(total, size);
      if !FormatAllowed(requested, format) then Err(InvalidResponse(BadFormat))
      else if size == 0 || size > MAX_IMAGE_BYTES || total' > MAX_BATCH_BYTES then Err(InvalidResponse(BadSize))
      else if size > |s| then Err(Io)
      else if !SignatureMatches(format, s[..size]) then Err(InvalidResponse(BadSignature))
      else Ok(Body(Image(format, s[..size]), total', s[size..]))
    case _ => Err(InvalidResponse(ExpectedReady))
  }

  /** Which announced sizes are refused, and that nothing is read for them. */
  lemma SizesAreChecked(requested: Format, format: Format, size: U64, total: U64, s: seq<Byte>)
    requires format != Auto && (requested == Auto || requested == format) && total <= 67_108_864
    ensures ReadBody(requested, Ready(format, size), total, s) == Err(InvalidResponse(BadSize))
       <==> size == 0 || size > 20_971_520 || total + size > 67_108_864
  {
  }

  /** `n` images still to come, the first one's header possibly read already. */
  function ReceiveFrom(codec: Codec<Wire>, requested: Format, n: nat, buffered: Option<Wire>,
                       total: U64, images: seq<Image>, s: seq<Byte>): Received
    decreases n, 1
  {
    if n == 0 then Received(Ok(images), true, s)
    else if buffered.Some? then ReceiveImage(codec, requested, n, buffered.value, total, images, s)
    else
      var (o, rest) := ReadFlat(codec, s);
      if !o.Message? then Received(Err(Protocol), Ascii(FirstLine(s)), rest)
      else
        var r := ReceiveImage(codec, requested, n, o.m, total, images, rest);
        Received(r.result, Ascii(FirstLine(s)) && r.asciiHeaders, r.rest)
  }

  function ReceiveImage(codec: Codec<Wire>, requested: Format, n: nat, header: Wire,
                        total: U64, images: seq<Image>, s: seq<Byte>): Received
    requires n > 0
    decreases n, 0
  {
    match ReadBody(requested, header, total, s)
    case Err(e) => Received(Err(e), true, s)
    case Ok(body) => ReceiveFrom(codec, requested, n - 1, None, body.total, images + [body.image], body.rest)
  }

  function ReceiveFlat(codec: Codec<Wire>, requested: Format, s: seq<Byte>): Received {
    var (o, rest) := ReadFlat(codec, s);
    var ascii := Ascii(FirstLine(s));
    if !o.Message? then Received(Err(Protocol), ascii, rest)
    else
      var count := if o.m.BatchReady? then o.m.count else 1;
      if count == 0 || count > MAX_BATCH_IMAGES then Received(Err(InvalidResponse(BadCount)), ascii, rest)
      else
        var r := ReceiveFrom(codec, requested, count, if o.m.BatchReady? then None else Some(o.m), 0, [], rest);
        Received(r.result, ascii && r.asciiHeaders, r.rest)
  }

  /** The checks on one image, reading its bytes from the reader that may already hold them. */
  method ReceiveBody(reader: ChunkReader, requested: Format, header: Wire, total: U64)
    returns (r: Result<(Image, U64), PasteError>)
    requires reader.Valid()
    modifies reader
    ensures reader.Valid()
    ensures match ReadBody(requested, header, total, old(reader.Rest()))
            case Err(e) => r == Err(e)
            case Ok(body) => r == Ok((body.image, body.total)) && reader.Rest() == body.rest
  {
    var format, size;
    match header {
      case Ready(f, n) => format, size := f, n;
      case HostError(error) => return Err(Host(error));
      case _ => return Err(InvalidResponse(ExpectedReady));
    }
    if format == Auto || (requested != Auto && requested != format) {
      return Err(InvalidResponse(BadFormat));
    }
    var total' := SaturatingAdd(total, size);
    if size == 0 || size > MAX_IMAGE_BYTES || total' > MAX_BATCH_BYTES {
      return Err(InvalidResponse(BadSize));
    }
    var bytes := reader.ReadExact(size);
    if bytes.None? {
      return Err(Io);
    }
    if !SignatureMatches(format, bytes.value) {
      return Err(InvalidResponse(BadSignature));
    }
    return Ok((Image(format, bytes.value), total'));
  }

  /** The flat reading from here on agrees with `flat`, and can only be more ASCII. */
  ghost predicate Continues(flat: Received, now: Received) {
    flat.result == now.result && flat.rest == now.rest && (flat.asciiHeaders ==> now.asciiHeaders)
  }

  lemma HeaderContinues(codec: Codec<Wire>, requested: Format, flat: Received, n: nat, total: U64,
                        images: seq<Image>, s: seq<Byte>)
    requires n > 0 && Continues(flat, ReceiveFrom(codec, requested, n, None, total, images, s))
    ensures flat.asciiHeaders ==> Ascii(FirstLine(s))
    ensures var (o, rest) := ReadFlat(codec, s);
      if o.Message? then Continues(flat, ReceiveImage(codec, requested, n, o.m, total, images, rest))
      else flat.result == Err(Protocol)
  {
    hide ReadFlat, FirstLine, Ascii, ReceiveImage;
  }

  lemma BodyContinues(codec: Codec<Wire>, requested: Format, flat: Received, n: nat, header: Wire, total: U64,
                      images: seq<Image>, s: seq<Byte>)
    requires n > 0 && Continues(flat, ReceiveImage(codec, requested, n, header, total, images, s))
    ensures match ReadBody(requested, header, total, s)
            case Err(e) => flat.result == Err(e)
            case Ok(body) =>
              Continues(flat, ReceiveFrom(codec, requested, n - 1, None, body.total, images + [body.image], body.rest))
  {
    hide ReadBody, ReceiveFrom;
  }

  lemma FirstContinues(codec: Codec<Wire>, requested: Format, s: seq<Byte>)
    ensures var flat, (o, rest) := ReceiveFlat(codec, requested, s), ReadFlat(codec, s);
      && (flat.asciiHeaders ==> Ascii(FirstLine(s)))
      && (!o.Message? ==> flat.result == Err(Protocol))
      && (o.Message? ==>
            var count := if o.m.BatchReady? then o.m.count else 1;
            if count == 0 || count > MAX_BATCH_IMAGES then flat.result == Err(InvalidResponse(BadCount))
            else Continues(flat, ReceiveFrom(codec, requested, count, if o.m.BatchReady? then None else Some(o.m),
                                             0, [], rest)))
  {
    hide ReadFlat, FirstLine, Ascii, ReceiveFrom;
  }

  /** `receive_images`. The chunks make no difference: the result is that of the flat reading, except
      that a header that is not ASCII may be refused, and after a transfer that is accepted the stream
      continues where the flat reading ended. */
  method ReceiveImages(codec: Codec<Wire>, reader: ChunkReader, requested: Format)
    returns (r: Result<seq<Image>, PasteError>)
    requires reader.Valid()
    modifies reader
    ensures r == ReceiveFlat(codec, requested, old(reader.Rest())).result
            || (r == Err(Protocol) && !ReceiveFlat(codec, requested, old(reader.Rest())).asciiHeaders)
    ensures reader.Valid() && (r.Ok? ==> reader.Rest() == ReceiveFlat(codec, requested, old(reader.Rest())).rest)
  {
    hide ReadFlat, FirstLine, Ascii, ReadBody, ReceiveFlat, ReceiveImage;
    ghost var flat := ReceiveFlat(codec, requested, reader.Rest());
    FirstContinues(codec, requested, reader.Rest());
    var buffered: Option<Wire> := None;
    var count: nat := 1;
    var first := ReadMessage(codec, reader);
    match first {
      case Err(_) => return Err(Protocol);
      case Ok(BatchReady(n)) => count := n;
      case Ok(m) => buffered := Some(m);
    }
    if count == 0 || count > MAX_BATCH_IMAGES {
      return Err(InvalidResponse(BadCount));
    }
    var images: seq<Image> := [];
    var total: U64 := 0;
    var left := count;
    while left > 0
      invariant reader.Valid()
      invariant Continues(flat, ReceiveFrom(codec, requested, left, buffered, total, images, reader.Rest()))
    {
      var header;
      if buffered.Some? {
        header, buffered := buffered.value, None;
      } else {
        HeaderContinues(codec, requested, flat, left, total, images, reader.Rest());
        var next := ReadMessage(codec, reader);
        if next.Err? {
          return Err(Protocol);
        }
        header := next.value;
      }
      BodyContinues(codec, requested, flat, left, header, total, images, reader.Rest());
      var body := ReceiveBody(reader, requested, header, total);
      if body.Err? {
        return Err(body.error);
      }
      images := images + [body.value.0];
      total := body.value.1;
      left := left - 1;
    }
    return Ok(images);
  }

  // ---- Soundness and round trip -------------------------------------------------------

  function TotalSize(images: seq<Image>): nat {
    if images == [] then 0 else TotalSize(images[..|images| - 1]) + |images[|images| - 1].bytes|
  }

  predicate GoodImage(requested: Format, image: Image) {
    && FormatAllowed(requested, image.format)
    && SignatureMatches(image.format, image.bytes)
    && 0 < |image.bytes| <= MAX_IMAGE_BYTES
  }

  /** The rules a transfer must meet. */
  predicate GoodTransfer(requested: Format, images: seq<Image>) {
    && 1 <= |images| <= MAX_BATCH_IMAGES
    && (forall i | 0 <= i < |images| :: GoodImage(requested, images[i]))
    && TotalSize(images) <= MAX_BATCH_BYTES
  }

  lemma AcceptedBodyIsGood(requested: Format, header: Wire, total: U64, s: seq<Byte>)
    requires ReadBody(requested, header, total, s).Ok?
    ensures var body := ReadBody(requested, header, total, s).value;
      && GoodImage(requested, body.image)
      && body.total == total + |body.image.bytes| <= MAX_BATCH_BYTES
      && body.image.bytes + body.rest == s
  {
  }

  lemma {:induction false} ReceiveFromIsSound(codec: Codec<Wire>, requested: Format, n: nat, buffered: Option<Wire>,
                                              total: U64, images: seq<Image>, s: seq<Byte>)
    requires total == TotalSize(images) <= MAX_BATCH_BYTES
    requires forall i | 0 <= i < |images| :: GoodImage(requested, images[i])
    ensures var r := ReceiveFrom(codec, requested, n, buffered, total, images, s).result;
      r.Ok? ==> |r.value| == |images| + n && TotalSize(r.value) <= MAX_BATCH_BYTES
                && forall i | 0 <= i < |r.value| :: GoodImage(requested, r.value[i])
    decreases n
  {
    hide ReadFlat, FirstLine, Ascii, ReadBody;
    if n > 0 && (buffered.Some? || ReadFlat(codec, s).0.Message?) {
      var header := if buffered.Some? then buffered.value else ReadFlat(codec, s).0.m;
      var rest := if buffered.Some? then s else ReadFlat(codec, s).1;
      var body := ReadBody(requested, header, total, rest);
      if body.Ok? {
        var images' := images + [body.value.image];
        AcceptedBodyIsGood(requested, header, total, rest);
        assert images'[..|images|] == images;
        ReceiveFromIsSound(codec, requested, n - 1, None, body.value.total, images', body.value.rest);
      }
    }
  }

  /** Main result: whatever the input, images that are accepted meet every rule. */
  lemma AcceptedTransfersAreGood(codec: Codec<Wire>, requested: Format, s: seq<Byte>)
    ensures var r := ReceiveFlat(codec, requested, s).result;
      r.Ok? ==>
        && GoodTransfer(requested, r.value) && 1 <= |r.value| <= 16 && TotalSize(r.value) <= 67_108_864
        && (forall image | image in r.value :: 1 <= |image.bytes| <= 20_971_520)
  {
    var (o, rest) := ReadFlat(codec, s);
    if o.Message? {
      var count := if o.m.BatchReady? then o.m.count else 1;
      ReceiveFromIsSound(codec, requested, count, if o.m.BatchReady? then None else Some(o.m), 0, [], rest);
    }
  }

  /** What the transfer needs of JSON beyond the codec law: headers are ASCII and fit in a message. */
  ghost predicate PlainHeaders(codec: Codec<Wire>) {
    && Lawful(codec)
    && forall m: Wire | m.BatchReady? || m.Ready? :: Ascii(codec.encode(m)) && |codec.encode(m)| < MAX_MESSAGE_SIZE
  }

  lemma HeaderReads(codec: Codec<Wire>, m: Wire, rest: seq<Byte>)
    requires PlainHeaders(codec) && (m.BatchReady? || m.Ready?)
    ensures Frame(codec, m).Some?
    ensures ReadFlat(codec, Frame(codec, m).value + rest) == (Message(m), rest)
    ensures Ascii(FirstLine(Frame(codec, m).value + rest))
  {
    hide ReadFlat, FirstLine;
    var line := codec.encode(m) + [NEWLINE];
    assert line[..|line| - 1] == codec.encode(m);
    ReadsOneLine(codec, line, rest);
    FirstLineOfLine(line, rest);
    assert Ascii(codec.encode(m)) && forall b | b in line :: b in codec.encode(m) || b == NEWLINE;
  }

  lemma {:induction false} TotalSizeConcat(a: seq<Image>, b: seq<Image>)
    ensures TotalSize(a + b) == TotalSize(a) + TotalSize(b)
    decreases |b|
  {
    if b == [] {
      assert a + b == a;
    } else {
      var init := b[..|b| - 1];
      assert (a + b)[..|a + b| - 1] == a + init;
      TotalSizeConcat(a, init);
    }
  }

  lemma GoodBodyReads(requested: Format, image: Image, total: U64, rest: seq<Byte>)
    requires GoodImage(requested, image) && total + |image.bytes| <= MAX_BATCH_BYTES
    ensures ReadBody(requested, Header(image), total, image.bytes + rest)
        == Ok(Body(image, total + |image.bytes|, rest))
  {
    assert (image.bytes + rest)[..|image.bytes|] == image.bytes;
    assert (image.bytes + rest)[|image.bytes|..] == rest;
  }

  lemma HeaderThenImage(codec: Codec<Wire>, requested: Format, n: nat, header: Wire, total: U64,
                        images: seq<Image>, s: seq<Byte>, rest: seq<Byte>)
    requires n > 0 && ReadFlat(codec, s) == (Message(header), rest) && Ascii(FirstLine(s))
    ensures ReceiveFrom(codec, requested, n, None, total, images, s)
         == ReceiveImage(codec, requested, n, header, total, images, rest)
  {
    hide ReadFlat, FirstLine, Ascii, ReceiveImage;
    var r := ReceiveImage(codec, requested, n, header, total, images, rest);
    assert Received(r.result, r.asciiHeaders, r.rest) == r;
  }

  lemma ImageThenRest(codec: Codec<Wire>, requested: Format, n: nat, header: Wire, total: U64,
                      images: seq<Image>, s: seq<Byte>, body: Body)
    requires n > 0 && ReadBody(requested, header, total, s) == Ok(body)
    ensures ReceiveImage(codec, requested, n, header, total, images, s)
         == ReceiveFrom(codec, requested, n - 1, None, body.total, images + [body.image], body.rest)
  {
    hide ReadBody, ReceiveFrom;
  }

  lemma OneImageReads(codec: Codec<Wire>, requested: Format, n: nat, done: seq<Image>, total: U64,
                      image: Image, rest: seq<Byte>)
    requires PlainHeaders(codec) && n > 0 && GoodImage(requested, image) && total + |image.bytes| <= MAX_BATCH_BYTES
    ensures Frame(codec, Header(image)).Some?
    ensures ReceiveFrom(codec, requested, n, None, total, done,
                        Frame(codec, Header(image)).value + (image.bytes + rest))
         == ReceiveFrom(codec, requested, n - 1, None, total + |image.bytes|, done + [image], rest)
  {
    hide ReadFlat, Frame, PlainHeaders, FirstLine, Ascii, ReadBody, GoodImage, ReceiveFrom, ReceiveImage;
    var header, s := Header(image), image.bytes + rest;
    GoodBodyReads(requested, image, total, rest);
    HeaderReads(codec, header, s);
    HeaderThenImage(codec, requested, n, header, total, done, Frame(codec, header).value + s, s);
    ImageThenRest(codec, requested, n, header, total, done, s, Body(image, total + |image.bytes|, rest));
  }

  lemma NothingToRead(codec: Codec<Wire>, requested: Format, total: U64, done: seq<Image>, rest: seq<Byte>)
    ensures ReceiveFrom(codec, requested, 0, None, total, done, rest) == Received(Ok(done), true, rest)
  {
  }

  lemma {:induction false} ImagesReadBack(codec: Codec<Wire>, requested: Format, done: seq<Image>, total: U64,
                                          images: seq<Image>, extra: seq<Byte>)
    requires PlainHeaders(codec) && total + TotalSize(images) <= MAX_BATCH_BYTES
    requires forall i | 0 <= i < |images| :: GoodImage(requested, images[i])
    ensures ImageBytes(codec, images).Some?
    ensures ReceiveFrom(codec, requested, |images|, None, total, done, ImageBytes(codec, images).value + extra)
         == Received(Ok(done + images), true, extra)
    decreases |images|
  {
    hide Frame, PlainHeaders, ReceiveFrom, GoodImage;
    if images == [] {
      assert done + images == done && [] + extra == extra;
      NothingToRead(codec, requested, total, done, extra);
    } else {
      var image, later := images[0], images[1..];
      assert GoodImage(requested, image) && images == [image] + later;
      SizeOfFirst(images);
      ImagesReadBack(codec, requested, done + [image], total + |image.bytes|, later, extra);
      assert (done + [image]) + later == done + images;
      var rest := ImageBytes(codec, later).value + extra;
      OneImageReads(codec, requested, |images|, done, total, image, rest);
      assert ImageBytes(codec, images).value + extra == Frame(codec, Header(image)).value + (image.bytes + rest);
    }
  }

  lemma SizeOfFirst(images: seq<Image>)
    requires images != []
    ensures TotalSize(images) == |images[0].bytes| + TotalSize(images[1..])
  {
    TotalSizeConcat([images[0]], images[1..]);
    assert [images[0]] + images[1..] == images;
    assert [images[0]][..0] == [];
  }

  /** A count announced first leaves the headers to be read one by one. */
  lemma BatchReads(codec: Codec<Wire>, requested: Format, count: U32, rest: seq<Byte>)
    requires PlainHeaders(codec) && 1 <= count <= MAX_BATCH_IMAGES
    ensures Frame(codec, BatchReady(count)).Some?
    ensures ReceiveFlat(codec, requested, Frame(codec, BatchReady(count)).value + rest)
         == ReceiveFrom(codec, requested, count, None, 0, [], rest)
  {
    hide ReadFlat, Frame, PlainHeaders, FirstLine, Ascii, ReadBody, ReceiveFrom;
    HeaderReads(codec, BatchReady(count), rest);
  }

  /** Without a count, the first header is read ahead and handed on. */
  lemma SingleReads(codec: Codec<Wire>, requested: Format, image: Image, rest: seq<Byte>)
    requires PlainHeaders(codec)
    ensures Frame(codec, Header(image)).Some?
    ensures var s := Frame(codec, Header(image)).value + rest;
      ReceiveFlat(codec, requested, s) == ReceiveFrom(codec, requested, 1, None, 0, [], s)
  {
    hide ReadFlat, Frame, PlainHeaders, FirstLine, Ascii, ReadBody;
    HeaderReads(codec, Header(image), rest);
  }

  /** Main result: a good transfer is written completely and read back as the same images in order,
      leaving exactly what follows it, even if image bytes contain newlines. */
  lemma GoodTransfersReadBack(codec: Codec<Wire>, requested: Format, images: seq<Image>, extra: seq<Byte>)
    requires PlainHeaders(codec) && GoodTransfer(requested, images)
    ensures TransferBytes(codec, images).Some?
    ensures ReceiveFlat(codec, requested, TransferBytes(codec, images).value + extra)
        == Received(Ok(images), true, extra)
  {
    hide ReceiveFlat, ReceiveFrom, Frame, PlainHeaders;
    assert [] + images == images;
    ImagesReadBack(codec, requested, [], 0, images, extra);
    var body := ImageBytes(codec, images).value;
    if |images| > 1 {
      BatchReads(codec, requested, |images|, body + extra);
      var head := Frame(codec, BatchReady(|images|)).value;
      assert head + body + extra == head + (body + extra);
    } else {
      SingleReads(codec, requested, images[0], images[0].bytes + extra);
      assert images[1..] == [] && ImageBytes(codec, images[1..]) == Some([]);
      assert body + extra == Frame(codec, Header(images[0])).value + (images[0].bytes + extra);
    }
  }

  /** Main result: writing a good transfer, cutting the bytes into any chunks and receiving them gives
      the same images, and leaves what was written after them. */
  method TransferRoundTrip(codec: Codec<Wire>, requested: Format, images: seq<Image>, extra: seq<Byte>,
                           cut: seq<Byte> -> seq<seq<Byte>>)
    returns (r: Result<seq<Image>, PasteError>, rest: seq<Byte>)
    requires PlainHeaders(codec) && GoodTransfer(requested, images) && Cuts(cut)
    ensures r == Ok(images) && rest == extra
  {
    hide ReceiveFlat, TransferBytes, PlainHeaders, GoodTransfer;
    GoodTransfersReadBack(codec, requested, images, extra);
    var writer := new Writer();
    var written := WriteImages(codec, writer, images);
    assert [] + TransferBytes(codec, images).value == TransferBytes(codec, images).value;
    writer.WriteAll(extra);
    var reader := new ChunkReader(cut(writer.written));
    r := ReceiveImages(codec, reader, requested);
    rest := reader.ReadToEnd();
  }

  /** The rules are exactly what makes a written transfer readable. */
  lemma TransferReadsBackIff(codec: Codec<Wire>, requested: Format, images: seq<Image>)
    requires PlainHeaders(codec) && TransferBytes(codec, images).Some?
    ensures ReceiveFlat(codec, requested, TransferBytes(codec, images).value).result == Ok(images)
       <==> GoodTransfer(requested, images)
  {
    var bytes := TransferBytes(codec, images).value;
    AcceptedTransfersAreGood(codec, requested, bytes);
    if GoodTransfer(requested, images) {
      GoodTransfersReadBack(codec, requested, images, []);
      assert bytes + [] == bytes;
    }
  }
}
