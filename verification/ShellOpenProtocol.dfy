/**
 The wire format of core/shell_open_protocol.cpp: little-endian numbers, a 32-byte header, requests with
 length-prefixed UTF-8 paths, and responses. A path is the byte string of its UTF-8 form.
 */
module ShellOpenProtocol {

  import opened Arithmetic
  import opened Options
  import Utf8

  type Byte = Utf8.Byte

  datatype DecodeError =
    Truncated | InvalidMagic | UnsupportedVersion | InvalidHeader | InvalidMessageType | InvalidPayload

  datatype Decoded<T> = Ok(value: T) | Err(error: DecodeError)

  datatype Directive = InheritActive | UseLaunchDefaults | TerminalAscii | NativeWindowedFramebuffer

  datatype ResponseStatus = Accepted | InvalidRequest | UnsupportedVersion | InternalError

  datatype Request = Request(id: nat, presentation: Directive, files: seq<seq<Byte>>)

  datatype Response = Response(id: nat, status: ResponseStatus)

  datatype Header = Header(headerSize: nat, payloadSize: nat, id: nat)

  datatype MessageType = OpenFiles | ResponseMessage

  const MAGIC: seq<Byte> := [0x52, 0x53, 0x48, 0x4f]
  const MAJOR: nat := 1
  const MINOR: nat := 0
  const HEADER_SIZE: nat := 32
  const MAX_MESSAGE: nat := 64 * 1024
  const MAX_FILES: nat := 64
  const U32_LIMIT: nat := 0x1_0000_0000
  const U64_LIMIT: nat := 0x1_0000_0000_0000_0000

  function TypeCode(t: MessageType): nat {
    match t
    case OpenFiles => 1
    case ResponseMessage => 2
  }

  function DirectiveCode(d: Directive): (r: Byte)
    ensures r <= 3
  {
    match d
    case InheritActive => 0
    case UseLaunchDefaults => 1
    case TerminalAscii => 2
    case NativeWindowedFramebuffer => 3
  }

  function DirectiveOf(code: nat): (r: Option<Directive>)
    ensures r.Some? <==> code <= 3
    ensures r.Some? ==> DirectiveCode(r.value) == code
  {
    if code == 0 then Some(InheritActive)
    else if code == 1 then Some(UseLaunchDefaults)
    else if code == 2 then Some(TerminalAscii)
    else if code == 3 then Some(NativeWindowedFramebuffer)
    else None
  }

  function StatusCode(s: ResponseStatus): (r: nat)
    ensures r <= 3
  {
    match s
    case Accepted => 0
    case InvalidRequest => 1
    case UnsupportedVersion => 2
    case InternalError => 3
  }

  function StatusOf(code: nat): (r: Option<ResponseStatus>)
    ensures r.Some? <==> code <= 3
    ensures r.Some? ==> StatusCode(r.value) == code
  {
    if code == 0 then Some(Accepted)
    else if code == 1 then Some(InvalidRequest)
    else if code == 2 then Some(ResponseStatus.UnsupportedVersion)
    else if code == 3 then Some(InternalError)
    else None
  }

  // ----- little-endian numbers -----

  function Power(n: nat): (r: nat)
    ensures r > 0
  {
    if n == 0 then 1 else 0x100 * Power(n - 1)
  }

  /** The writer cuts a value to its width. */
  function Little(value: nat, size: nat): (r: seq<Byte>)
    ensures |r| == size
    decreases size
  {
    if size == 0 then [] else [value % 0x100] + Little(value / 0x100, size - 1)
  }

  function Value(bytes: seq<Byte>): nat {
    if bytes == [] then 0 else bytes[0] + 0x100 * Value(bytes[1..])
  }

  lemma {:induction false} ValueOfLittle(value: nat, size: nat)
    requires value < Power(size)
    ensures Value(Little(value, size)) == value
    decreases size
  {
    if size > 0 {
      ValueOfLittle(value / 0x100, size - 1);
      assert Little(value, size)[1..] == Little(value / 0x100, size - 1);
    }
  }

  lemma {:induction false} LittleOfValue(bytes: seq<Byte>)
    ensures Little(Value(bytes), |bytes|) == bytes && Value(bytes) < Power(|bytes|)
    decreases |bytes|
  {
    if bytes != [] {
      LittleOfValue(bytes[1..]);
    }
  }

  lemma Powers()
    ensures Power(1) == 0x100 && Power(2) == 0x1_0000 && Power(4) == U32_LIMIT && Power(8) == U64_LIMIT
  {
    assert Power(1) == 0x100 * Power(0);
    assert Power(2) == 0x100 * Power(1);
    assert Power(3) == 0x100 * Power(2);
    assert Power(4) == 0x100 * Power(3);
    assert Power(5) == 0x100 * Power(4);
    assert Power(6) == 0x100 * Power(5);
    assert Power(7) == 0x100 * Power(6);
  }

  // ----- reading -----

  function ReadUint(bytes: seq<Byte>, at: nat, size: nat): (r: Option<nat>)
    ensures r.Some? <==> at + size <= |bytes|
  {
    if at + size > |bytes| then None else Some(Value(bytes[at..at + size]))
  }

  // ----- header -----

  function EncodeHeader(t: MessageType, payloadSize: nat, id: nat): (r: seq<Byte>)
    ensures |r| == HEADER_SIZE
  {
    MAGIC + Little(MAJOR, 2) + Little(MINOR, 2) + Little(TypeCode(t), 2) + Little(HEADER_SIZE, 2)
    + Little(payloadSize, 4) + Little(id, 8) + Little(0, 4) + Little(0, 4)
  }

  function Field(message: seq<Byte>, at: nat, size: nat): nat
    requires at + size <= |message|
  {
    Value(message[at..at + size])
  }

  /** The minor version is read and ignored, and a longer header is skipped. */
  function DecodeHeader(message: seq<Byte>, expected: MessageType): Decoded<Header> {
    if |message| < HEADER_SIZE then Err(Truncated)
    else if |message| > MAX_MESSAGE then Err(InvalidHeader)
    else if message[..4] != MAGIC then Err(InvalidMagic)
    else
      var headerSize, payloadSize := Field(message, 10, 2), Field(message, 12, 4);
      if Field(message, 4, 2) != MAJOR then Err(DecodeError.UnsupportedVersion)
      else if Field(message, 8, 2) != TypeCode(expected) then Err(InvalidMessageType)
      else if headerSize < HEADER_SIZE || headerSize > |message| || payloadSize > MAX_MESSAGE
              || Field(message, 24, 4) != 0 || Field(message, 28, 4) != 0 || headerSize + payloadSize != |message| then
        Err(InvalidHeader)
      else Ok(Header(headerSize, payloadSize, Field(message, 16, 8)))
  }

  lemma HeaderSlices(t: MessageType, payloadSize: nat, id: nat, payload: seq<Byte>)
    ensures var m := EncodeHeader(t, payloadSize, id) + payload;
            && m[..4] == MAGIC && m[4..6] == Little(MAJOR, 2) && m[6..8] == Little(MINOR, 2)
            && m[8..10] == Little(TypeCode(t), 2) && m[10..12] == Little(HEADER_SIZE, 2)
            && m[12..16] == Little(payloadSize, 4) && m[16..24] == Little(id, 8)
            && m[24..28] == Little(0, 4) && m[28..32] == Little(0, 4) && m[32..] == payload
  {
    hide Little;
  }

  lemma HeaderDecodes(t: MessageType, id: nat, payload: seq<Byte>)
    requires id < U64_LIMIT && HEADER_SIZE + |payload| <= MAX_MESSAGE
    ensures DecodeHeader(EncodeHeader(t, |payload|, id) + payload, t) == Ok(Header(HEADER_SIZE, |payload|, id))
  {
    hide Little, Value, Power;
    HeaderSlices(t, |payload|, id, payload);
    Powers();
    ValueOfLittle(MAJOR, 2);
    ValueOfLittle(TypeCode(t), 2);
    ValueOfLittle(HEADER_SIZE, 2);
    ValueOfLittle(|payload|, 4);
    ValueOfLittle(id, 8);
    ValueOfLittle(0, 4);
  }

  lemma SliceOfSlice(message: seq<Byte>, i: nat, j: nat, k: nat, l: nat)
    requires i <= j <= |message| && k <= l <= j - i
    ensures message[i..j][k..l] == message[i + k..i + l]
  {
    var inner := message[i..j];
    assert forall x | 0 <= x < l - k :: inner[k..l][x] == inner[k + x] == message[i + k + x];
  }

  /** A header accepted with no extension and minor version 0 is the one the encoder writes. */
  lemma HeaderReencodes(message: seq<Byte>, t: MessageType)
    requires DecodeHeader(message, t).Ok? && DecodeHeader(message, t).value.headerSize == HEADER_SIZE
    requires Field(message, 6, 2) == MINOR
    ensures message[..HEADER_SIZE] ==
            EncodeHeader(t, DecodeHeader(message, t).value.payloadSize, DecodeHeader(message, t).value.id)
  {
    hide Little, Field;
    AppendField(message, 4, 2);
    AppendField(message, 6, 2);
    AppendField(message, 8, 2);
    AppendField(message, 10, 2);
    AppendField(message, 12, 4);
    AppendField(message, 16, 8);
    AppendField(message, 24, 4);
    AppendField(message, 28, 4);
  }

  lemma AppendField(message: seq<Byte>, at: nat, size: nat)
    requires at + size <= |message|
    ensures message[..at + size] == message[..at] + Little(Field(message, at, size), size)
  {
    LittleOfValue(message[at..at + size]);
  }

  // ----- requests -----

  predicate ValidPath(path: seq<Byte>) {
    path != [] && 0 !in path && Utf8.Scalars(path, 0).Some?
  }

  predicate Encodable(files: seq<seq<Byte>>) {
    forall k | 0 <= k < |files| :: ValidPath(files[k]) && |files[k]| < U32_LIMIT
  }

  function FilesBytes(files: seq<seq<Byte>>): seq<Byte> {
    if files == [] then [] else Little(|files[0]|, 4) + files[0] + FilesBytes(files[1..])
  }

  function Preamble(presentation: Directive, fileCount: nat): (r: seq<Byte>)
    ensures |r| == 8
  {
    [DirectiveCode(presentation), 0] + Little(0, 2) + Little(fileCount, 4)
  }

  function EncodeRequest(r: Request): Option<seq<Byte>> {
    if r.id == 0 || r.files == [] || |r.files| > MAX_FILES || !Encodable(r.files) then None
    else
      var payload := Preamble(r.presentation, |r.files|) + FilesBytes(r.files);
      if |payload| > MAX_MESSAGE - HEADER_SIZE then None else Some(EncodeHeader(OpenFiles, |payload|, r.id) + payload)
  }

  /** The files and where they end. */
  function DecodeFiles(message: seq<Byte>, at: nat, count: nat): Option<(seq<seq<Byte>>, nat)>
    decreases count
  {
    if count == 0 then Some(([], at))
    else
      match ReadUint(message, at, 4)
      case None => None
      case Some(length) =>
        if length == 0 || at + 4 + length > |message| || !ValidPath(message[at + 4..at + 4 + length]) then None
        else
          match DecodeFiles(message, at + 4 + length, count - 1)
          case None => None
          case Some(rest) => Some(([message[at + 4..at + 4 + length]] + rest.0, rest.1))
  }

  function DecodePayload(message: seq<Byte>, at: nat, id: nat): Option<Request> {
    if at + 8 > |message| then None
    else
      var directive, fileCount := DirectiveOf(message[at]), Field(message, at + 4, 4);
      if message[at + 1] != 0 || Field(message, at + 2, 2) != 0 || directive.None? || fileCount == 0 ||
        fileCount > MAX_FILES then None
      else
        match DecodeFiles(message, at + 8, fileCount)
        case None => None
        case Some((files, end)) => if end == |message| then Some(Request(id, directive.value, files)) else None
  }

  function DecodeRequest(message: seq<Byte>): Decoded<Request> {
    match DecodeHeader(message, OpenFiles)
    case Err(e) => Err(e)
    case Ok(header) =>
      if header.id == 0 then Err(InvalidPayload)
      else
        match DecodePayload(message, header.headerSize, header.id)
        case None => Err(InvalidPayload)
        case Some(request) => Ok(request)
  }

  function EncodeResponse(r: Response): seq<Byte> {
    EncodeHeader(ResponseMessage, 4, r.id) + Little(StatusCode(r.status), 4)
  }

  function DecodeResponse(message: seq<Byte>): Decoded<Response> {
    match DecodeHeader(message, ResponseMessage)
    case Err(e) => Err(e)
    case Ok(header) =>
      if header.headerSize + 4 != |message| then Err(InvalidPayload)
      else
        match StatusOf(Field(message, header.headerSize, 4))
        case None => Err(InvalidPayload)
        case Some(status) => Ok(Response(header.id, status))
  }

  // ----- there and back -----

  lemma {:induction false} FilesDecode(message: seq<Byte>, at: nat, files: seq<seq<Byte>>)
    requires Encodable(files) && at <= |message| && message[at..] == FilesBytes(files)
    ensures DecodeFiles(message, at, |files|) == Some((files, |message|))
    decreases |files|
  {
    hide Little, Value, ValidPath, Power;
    if files != [] {
      var path := files[0];
      var rest := FilesBytes(files[1..]);
      var tail := message[at..];
      assert |tail| == 4 + |path| + |rest|;
      assert message[at..at + 4] == tail[..4] == Little(|path|, 4);
      assert message[at + 4..at + 4 + |path|] == tail[4..4 + |path|] == path;
      assert message[at + 4 + |path|..] == tail[4 + |path|..] == rest;
      Powers();
      ValueOfLittle(|path|, 4);
      FilesDecode(message, at + 4 + |path|, files[1..]);
      NonEmptyPath(path);
      assert files == [path] + files[1..];
    }
  }

  lemma NonEmptyPath(path: seq<Byte>)
    requires ValidPath(path)
    ensures path != []
  {
  }

  lemma {:induction false} FilesReencode(message: seq<Byte>, at: nat, count: nat)
    requires at <= |message| && |message| <= MAX_MESSAGE && DecodeFiles(message, at, count).Some?
    ensures var (files, end) := DecodeFiles(message, at, count).value;
            |files| == count && Encodable(files) && at <= end <= |message| && message[at..end] == FilesBytes(files)
    decreases count
  {
    hide Little, Value, ValidPath, Power;
    if count > 0 {
      var length := Value(message[at..at + 4]);
      var path := message[at + 4..at + 4 + length];
      FilesReencode(message, at + 4 + length, count - 1);
      var (rest, end) := DecodeFiles(message, at + 4 + length, count - 1).value;
      LittleOfValue(message[at..at + 4]);
      assert ([path] + rest)[1..] == rest;
      assert message[at..end] == message[at..at + 4] + path + message[at + 4 + length..end];
    }
  }

  /** Decoding an encoded request gives it back, within the limits of 64 KiB and 64 files. */
  lemma RequestRoundTrip(r: Request)
    requires r.id < U64_LIMIT && EncodeRequest(r).Some?
    ensures |EncodeRequest(r).value| <= MAX_MESSAGE
    ensures DecodeRequest(EncodeRequest(r).value) == Ok(r)
  {
    hide DecodeHeader, EncodeHeader, FilesBytes, DecodeFiles, Encodable, Preamble, Field;
    var files := FilesBytes(r.files);
    var payload := Preamble(r.presentation, |r.files|) + files;
    var message := EncodeHeader(OpenFiles, |payload|, r.id) + payload;
    HeaderDecodes(OpenFiles, r.id, payload);
    PreambleDecodes(message, r.presentation, |r.files|);
    assert message[40..] == files;
    FilesDecode(message, 40, r.files);
  }

  lemma PreambleDecodes(message: seq<Byte>, presentation: Directive, fileCount: nat)
    requires |message| >= 40 && message[32..40] == Preamble(presentation, fileCount) && fileCount <= MAX_FILES
    ensures message[32] == DirectiveCode(presentation) && message[33] == 0
    ensures Field(message, 34, 2) == 0 && Field(message, 36, 4) == fileCount
  {
    hide Little, Value, Power;
    var p := message[32..40];
    assert message[32] == p[0] && message[33] == p[1];
    SliceOfSlice(message, 32, 40, 2, 4);
    SliceOfSlice(message, 32, 40, 4, 8);
    assert p[2..4] == Little(0, 2);
    assert p[4..8] == Little(fileCount, 4);
    Powers();
    ValueOfLittle(0, 2);
    ValueOfLittle(fileCount, 4);
  }

  lemma PreambleReencodes(message: seq<Byte>, at: nat)
    requires at + 8 <= |message| && message[at + 1] == 0 && Field(message, at + 2, 2) == 0 &&
             DirectiveOf(message[at]).Some?
    ensures message[at..at + 8] == Preamble(DirectiveOf(message[at]).value, Field(message, at + 4, 4))
  {
    hide Little, Value;
    LittleOfValue(message[at + 2..at + 4]);
    LittleOfValue(message[at + 4..at + 8]);
    assert message[at..at + 8] == [message[at], message[at + 1]] + message[at + 2..at + 4] + message[at + 4..at + 8];
  }

  lemma HeaderShape(message: seq<Byte>, t: MessageType)
    requires DecodeHeader(message, t).Ok?
    ensures var h := DecodeHeader(message, t).value;
            && HEADER_SIZE <= h.headerSize <= |message| <= MAX_MESSAGE && h.headerSize + h.payloadSize == |message|
            && h.id < U64_LIMIT
  {
    Powers();
    LittleOfValue(message[16..24]);
  }

  /** What an accepted request says is what the encoder would send after its own header. */
  lemma AcceptedPayload(message: seq<Byte>)
    requires DecodeRequest(message).Ok?
    ensures var r := DecodeRequest(message).value;
            var h := DecodeHeader(message, OpenFiles).value;
            && 0 < r.id == h.id && 1 <= |r.files| <= MAX_FILES && Encodable(r.files)
            && message[h.headerSize..] == Preamble(r.presentation, |r.files|) + FilesBytes(r.files)
  {
    hide DecodeHeader, FilesBytes, DecodeFiles, Encodable, Preamble;
    HeaderShape(message, OpenFiles);
    var r := DecodeRequest(message).value;
    var at := DecodeHeader(message, OpenFiles).value.headerSize;
    PreambleReencodes(message, at);
    FilesReencode(message, at + 8, Field(message, at + 4, 4));
    assert message[at..] == message[at..at + 8] + message[at + 8..|message|];
  }

  /** Every accepted request can be encoded again, and to the same bytes unless its header was extended. */
  lemma AcceptedReencodes(message: seq<Byte>)
    requires DecodeRequest(message).Ok?
    ensures var r := DecodeRequest(message).value;
            && EncodeRequest(r).Some? && DecodeRequest(EncodeRequest(r).value) == Ok(r)
            && (Field(message, 10, 2) == HEADER_SIZE && Field(message, 6, 2) == MINOR ==>
                EncodeRequest(r) == Some(message))
  {
    hide FilesBytes, DecodeFiles, Encodable, Preamble, EncodeHeader, DecodePayload, Field, Value, Little;
    HeaderShape(message, OpenFiles);
    AcceptedPayload(message);
    var r := DecodeRequest(message).value;
    RequestRoundTrip(r);
    if Field(message, 10, 2) == HEADER_SIZE && Field(message, 6, 2) == MINOR {
      HeaderReencodes(message, OpenFiles);
      assert message == message[..HEADER_SIZE] + message[HEADER_SIZE..];
    }
  }

  /** Paths that get through are non-empty, without NUL, and UTF-8 as section 4 of RFC 3629 defines it. */
  lemma AcceptedPathsAreUtf8(message: seq<Byte>, k: nat)
    requires DecodeRequest(message).Ok? && k < |DecodeRequest(message).value.files|
    ensures var path := DecodeRequest(message).value.files[k];
            path != [] && 0 !in path && Utf8.IsUtf8(path)
  {
    hide DecodeRequest;
    AcceptedPayload(message);
    Utf8.StrictAcceptsExactlyUtf8(DecodeRequest(message).value.files[k]);
  }

  lemma ResponseRoundTrip(r: Response)
    requires r.id < U64_LIMIT
    ensures DecodeResponse(EncodeResponse(r)) == Ok(r)
  {
    hide DecodeHeader, EncodeHeader, Little, Value, Power;
    var payload := Little(StatusCode(r.status), 4);
    var message := EncodeResponse(r);
    HeaderDecodes(ResponseMessage, r.id, payload);
    assert message[32..36] == payload;
    Powers();
    ValueOfLittle(StatusCode(r.status), 4);
  }

  lemma AcceptedResponseReencodes(message: seq<Byte>)
    requires DecodeResponse(message).Ok?
    ensures DecodeResponse(EncodeResponse(DecodeResponse(message).value)) == DecodeResponse(message)
    ensures Field(message, 10, 2) == HEADER_SIZE && Field(message, 6, 2) == MINOR ==>
              EncodeResponse(DecodeResponse(message).value) == message
  {
    hide EncodeHeader, Field, Little, Power;
    HeaderShape(message, ResponseMessage);
    var r := DecodeResponse(message).value;
    ResponseRoundTrip(r);
    if Field(message, 10, 2) == HEADER_SIZE && Field(message, 6, 2) == MINOR {
      HeaderReencodes(message, ResponseMessage);
      ResponseStatusBytes(message);
      assert message == message[..HEADER_SIZE] + message[HEADER_SIZE..];
    }
  }

  lemma ResponseStatusBytes(message: seq<Byte>)
    requires |message| == 36
    ensures message[32..] == Little(Field(message, 32, 4), 4)
  {
    LittleOfValue(message[32..36]);
  }

  /** A message cut short, or with bytes after its end, is never accepted. */
  lemma WrongLengthIsRejected(r: Request, cut: seq<Byte>)
    requires r.id < U64_LIMIT && EncodeRequest(r).Some?
    requires cut < EncodeRequest(r).value || EncodeRequest(r).value < cut
    ensures DecodeRequest(cut).Err?
  {
    hide EncodeHeader, DecodePayload, Value, Little, Power;
    var payload := Preamble(r.presentation, |r.files|) + FilesBytes(r.files);
    var message := EncodeRequest(r).value;
    HeaderDecodes(OpenFiles, r.id, payload);
    assert |cut| >= HEADER_SIZE ==> cut[10..12] == message[10..12] && cut[12..16] == message[12..16];
  }

  /** The two kinds of message are never taken for each other. */
  lemma KindsAreDistinct(r: Request, a: Response)
    requires r.id < U64_LIMIT && a.id < U64_LIMIT && EncodeRequest(r).Some?
    ensures DecodeResponse(EncodeRequest(r).value) == Err(InvalidMessageType)
    ensures DecodeRequest(EncodeResponse(a)) == Err(InvalidMessageType)
  {
    hide EncodeHeader, Little, Value, Power;
    var payload := Preamble(r.presentation, |r.files|) + FilesBytes(r.files);
    HeaderSlices(OpenFiles, |payload|, r.id, payload);
    HeaderSlices(ResponseMessage, 4, a.id, Little(StatusCode(a.status), 4));
    Powers();
    ValueOfLittle(MAJOR, 2);
    ValueOfLittle(TypeCode(OpenFiles), 2);
    ValueOfLittle(TypeCode(ResponseMessage), 2);
  }

  /** The encoder refuses exactly these requests. */
  lemma EncoderAcceptsIff(r: Request)
    ensures EncodeRequest(r).Some? <==>
              && r.id != 0 && 1 <= |r.files| <= 64
              && (forall k | 0 <= k < |r.files| :: r.files[k] != [] && 0 !in r.files[k] && Utf8.IsUtf8(r.files[k]))
              && 32 + 8 + TotalLength(r.files) <= 65536
  {
    FilesBytesLength(r.files);
    forall k | 0 <= k < |r.files|
      ensures ValidPath(r.files[k]) <==> r.files[k] != [] && 0 !in r.files[k] && Utf8.IsUtf8(r.files[k])
    {
      Utf8.StrictAcceptsExactlyUtf8(r.files[k]);
    }
    if TotalLength(r.files) <= MAX_MESSAGE {
      forall k | 0 <= k < |r.files| ensures |r.files[k]| < U32_LIMIT {
        LengthIsCounted(r.files, k);
      }
    }
  }

  /** Byte k of a number has the weight of 256 to the k. */
  lemma {:induction false} LittleByte(value: nat, size: nat, k: nat)
    requires k < size
    ensures Little(value, size)[k] == value / Power(k) % 0x100
    decreases k
  {
    if k > 0 {
      LittleByte(value / 0x100, size - 1, k - 1);
      DivideTwice(value, 0x100, Power(k - 1));
      assert Power(k) == 0x100 * Power(k - 1);
    }
  }

  /** What every message begins with: RSHO, version 1.0, the kind, the header's size, and reserved zeros. */
  ghost predicate Layout(m: seq<Byte>, kind: Byte, id: nat) {
    && |m| >= 36
    && m[..12] == [0x52, 0x53, 0x48, 0x4f, 1, 0, 0, 0, kind, 0, 32, 0]
    && m[12..16] == Little(|m| - 32, 4) && m[16..24] == Little(id, 8)
    && m[24..32] == [0, 0, 0, 0, 0, 0, 0, 0]
  }

  lemma SmallLittle()
    ensures Little(1, 2) == [1, 0] && Little(0, 2) == [0, 0] && Little(2, 2) == [2, 0] && Little(32, 2) == [32, 0]
    ensures Little(0, 4) == [0, 0, 0, 0]
  {
  }

  lemma HeaderLayout(t: MessageType, payload: seq<Byte>, id: nat)
    requires |payload| >= 4
    ensures Layout(EncodeHeader(t, |payload|, id) + payload, match t case OpenFiles => 1 case ResponseMessage => 2, id)
  {
    HeaderSlices(t, |payload|, id, payload);
    SmallLittle();
    hide Little, EncodeHeader;
    var m := EncodeHeader(t, |payload|, id) + payload;
    TwelveBytes(m);
    EightBytes(m);
  }

  lemma TwelveBytes(m: seq<Byte>)
    requires |m| >= 12
    ensures m[..12] == m[..4] + m[4..6] + m[6..8] + m[8..10] + m[10..12]
  {
  }

  lemma EightBytes(m: seq<Byte>)
    requires |m| >= 32
    ensures m[24..32] == m[24..28] + m[28..32]
  {
  }

  /** The bytes of a request: its header, how it is to be shown, how many files, and then the files. */
  lemma RequestLayout(r: Request)
    requires EncodeRequest(r).Some?
    ensures var m := EncodeRequest(r).value;
            && Layout(m, 1, r.id) && |m| >= 40
            && m[32] == (match r.presentation
                         case InheritActive => 0
                         case UseLaunchDefaults => 1
                         case TerminalAscii => 2
                         case NativeWindowedFramebuffer => 3)
            && m[33] == m[34] == m[35] == 0 && m[36..40] == Little(|r.files|, 4) && m[40..] == FilesBytes(r.files)
  {
    var payload := Preamble(r.presentation, |r.files|) + FilesBytes(r.files);
    HeaderLayout(OpenFiles, payload, r.id);
    HeaderSlices(OpenFiles, |payload|, r.id, payload);
    assert Little(0, 2) == [0, 0];
    var m := EncodeRequest(r).value;
    assert m[32..] == payload;
    assert m[36..40] == payload[4..8] && m[40..] == payload[8..];
    assert m[32] == payload[0] && m[33] == payload[1] && m[34] == payload[2] && m[35] == payload[3];
  }

  /** And of a response. */
  lemma ResponseLayout(r: Response)
    ensures var m := EncodeResponse(r);
            && Layout(m, 2, r.id) && |m| == 36
            && m[32..] == [match r.status
                           case Accepted => 0
                           case InvalidRequest => 1
                           case UnsupportedVersion => 2
                           case InternalError => 3, 0, 0, 0]
  {
    var payload := Little(StatusCode(r.status), 4);
    HeaderLayout(ResponseMessage, payload, r.id);
    HeaderSlices(ResponseMessage, 4, r.id, payload);
    assert Little(0, 3) == [0, 0, 0];
    assert StatusCode(r.status) / 0x100 == 0;
  }

  /** Four bytes of length and the path itself, for every file. */
  function TotalLength(files: seq<seq<Byte>>): nat {
    if files == [] then 0 else 4 + |files[0]| + TotalLength(files[1..])
  }

  lemma {:induction false} FilesBytesLength(files: seq<seq<Byte>>)
    ensures |FilesBytes(files)| == TotalLength(files)
  {
    if files != [] {
      FilesBytesLength(files[1..]);
    }
  }

  lemma {:induction false} LengthIsCounted(files: seq<seq<Byte>>, k: nat)
    requires k < |files|
    ensures |files[k]| <= TotalLength(files)
  {
    if k > 0 {
      LengthIsCounted(files[1..], k - 1);
    }
  }

  // ----- writer and reader -----

  lemma {:induction false} LittleAppend(value: nat, size: nat)
    ensures Little(value, size + 1) == Little(value, size) + [Quotient(value, Power(size)) % 0x100]
    decreases size
  {
    if size == 0 {
      assert Quotient(value, 1) == value;
    } else {
      LittleAppend(value / 0x100, size - 1);
      DivideTwice(value, 0x100, Power(size - 1));
    }
  }

  lemma {:induction false} ValueAppend(bytes: seq<Byte>, b: Byte)
    ensures Value(bytes + [b]) == Value(bytes) + b * Power(|bytes|)
    decreases |bytes|
  {
    if bytes == [] {
      assert [] + [b] == [b];
    } else {
      assert (bytes + [b])[1..] == bytes[1..] + [b];
      ValueAppend(bytes[1..], b);
      assert 0x100 * (b * Power(|bytes| - 1)) == b * (0x100 * Power(|bytes| - 1));
    }
  }

  class Writer {
    var bytes: seq<Byte>

    constructor ()
      ensures bytes == []
    {
      bytes := [];
    }

    /** writeU8, writeU16, writeU32 and writeU64: the lowest byte first. */
    method WriteUint(value: nat, size: nat)
      modifies this
      ensures bytes == old(bytes) + Little(value, size)
    {
      var scale := 1;
      for i := 0 to size
        invariant scale == Power(i) && bytes == old(bytes) + Little(value, i)
      {
        LittleAppend(value, i);
        bytes := bytes + [Quotient(value, scale) % 0x100];
        scale := scale * 0x100;
      }
    }

    method WriteBytes(value: seq<Byte>)
      modifies this
      ensures bytes == old(bytes) + value
    {
      bytes := bytes + value;
    }

    method WriteHeader(t: MessageType, payloadSize: nat, id: nat)
      modifies this
      ensures bytes == old(bytes) + EncodeHeader(t, payloadSize, id)
    {
      hide Little;
      WriteBytes(MAGIC);
      WriteUint(MAJOR, 2);
      WriteUint(MINOR, 2);
      WriteUint(TypeCode(t), 2);
      WriteUint(HEADER_SIZE, 2);
      WriteUint(payloadSize, 4);
      WriteUint(id, 8);
      WriteUint(0, 4);
      WriteUint(0, 4);
    }
  }

  /** Reads up to the end of the message. */
  class Reader {
    const message: seq<Byte>
    var cursor: nat

    ghost predicate Valid()
      reads this
    {
      cursor <= |message|
    }

    constructor (message: seq<Byte>, begin: nat)
      requires begin <= |message|
      ensures Valid() && this.message == message && cursor == begin
    {
      this.message, cursor := message, begin;
    }

    method ReadNumber(size: nat) returns (r: Option<nat>)
      requires Valid()
      modifies this
      ensures Valid() && r == ReadUint(message, old(cursor), size)
      ensures r.Some? ==> cursor == old(cursor) + size
    {
      var value: nat, scale: nat := 0, 1;
      for i := 0 to size
        invariant Valid() && cursor == old(cursor) + i
        invariant scale == Power(i) && value == Value(message[old(cursor)..cursor])
      {
        if cursor >= |message| {
          return None;
        }
        ValueAppend(message[old(cursor)..cursor], message[cursor]);
        assert message[old(cursor)..cursor] + [message[cursor]] == message[old(cursor)..cursor + 1];
        value := value + message[cursor] * scale;
        scale := scale * 0x100;
        cursor := cursor + 1;
      }
      r := Some(value);
    }

    method ReadString(size: nat) returns (r: Option<seq<Byte>>)
      requires Valid()
      modifies this
      ensures Valid()
      ensures r.Some? <==> old(cursor) + size <= |message|
      ensures r.Some? ==> cursor == old(cursor) + size && r.value == message[old(cursor)..cursor]
    {
      if size > |message| - cursor {
        return None;
      }
      r := Some(message[cursor..cursor + size]);
      cursor := cursor + size;
    }
  }

  method PathIsValid(path: seq<Byte>) returns (valid: bool)
    ensures valid == ValidPath(path)
  {
    if path == [] || 0 in path {
      return false;
    }
    Utf8.StrictAcceptsExactlyUtf8(path);
    valid := Utf8.IsValidUtf8(path, false);
  }

  lemma {:induction false} FilesBytesAppend(files: seq<seq<Byte>>, file: seq<Byte>)
    ensures FilesBytes(files + [file]) == FilesBytes(files) + (Little(|file|, 4) + file)
  {
    hide Little;
    if files == [] {
      assert [] + [file] == [file];
      assert FilesBytes([file]) == Little(|file|, 4) + file + FilesBytes([]);
    } else {
      assert (files + [file])[1..] == files[1..] + [file];
      FilesBytesAppend(files[1..], file);
    }
  }

  method EncodeRequestMessage(r: Request) returns (message: Option<seq<Byte>>)
    ensures message == EncodeRequest(r)
  {
    hide Little, FilesBytes, EncodeHeader, ValidPath;
    if r.id == 0 || r.files == [] || |r.files| > MAX_FILES {
      return None;
    }
    var payload := new Writer();
    payload.WriteUint(DirectiveCode(r.presentation), 1);
    payload.WriteUint(0, 1);
    payload.WriteUint(0, 2);
    payload.WriteUint(|r.files|, 4);
    PreambleAsNumbers(r.presentation, |r.files|);
    for i := 0 to |r.files|
      invariant payload.bytes == Preamble(r.presentation, |r.files|) + FilesBytes(r.files[..i])
      invariant forall k | 0 <= k < i :: ValidPath(r.files[k]) && |r.files[k]| < U32_LIMIT
    {
      var valid := PathIsValid(r.files[i]);
      if !valid || |r.files[i]| >= U32_LIMIT {
        return None;
      }
      payload.WriteUint(|r.files[i]|, 4);
      payload.WriteBytes(r.files[i]);
      assert r.files[..i + 1] == r.files[..i] + [r.files[i]];
      FilesBytesAppend(r.files[..i], r.files[i]);
    }
    assert r.files[..|r.files|] == r.files;
    if |payload.bytes| > MAX_MESSAGE - HEADER_SIZE {
      return None;
    }
    var header := new Writer();
    header.WriteHeader(OpenFiles, |payload.bytes|, r.id);
    assert header.bytes == EncodeHeader(OpenFiles, |payload.bytes|, r.id);
    message := Some(header.bytes + payload.bytes);
  }

  lemma PreambleAsNumbers(presentation: Directive, fileCount: nat)
    ensures Little(DirectiveCode(presentation), 1) + Little(0, 1) + Little(0, 2) + Little(fileCount, 4) + FilesBytes([])
         == Preamble(presentation, fileCount)
  {
    assert Little(DirectiveCode(presentation), 1) == [DirectiveCode(presentation)];
  }

  /** The file loop: what is read so far, and what DecodeFiles still has to read. */
  method DecodeFileList(payload: Reader, count: nat) returns (files: Option<seq<seq<Byte>>>)
    requires payload.Valid()
    modifies payload
    ensures payload.Valid()
    ensures var whole := DecodeFiles(payload.message, old(payload.cursor), count);
            if whole.None? then files.None? else files == Some(whole.value.0) && payload.cursor == whole.value.1
  {
    hide ValidPath;
    var read: seq<seq<Byte>> := [];
    ghost var whole := DecodeFiles(payload.message, payload.cursor, count);
    assert whole.Some? ==> [] + whole.value.0 == whole.value.0;
    for i := 0 to count
      invariant payload.Valid()
      invariant whole == FilesAfter(read, DecodeFiles(payload.message, payload.cursor, count - i))
    {
      ghost var at := payload.cursor;
      FilesStep(payload.message, at, count - i, read);
      var length := payload.ReadNumber(4);
      if length.None? || length.value == 0 {
        return None;
      }
      var path := payload.ReadString(length.value);
      if path.None? {
        return None;
      }
      var valid := PathIsValid(path.value);
      if !valid {
        return None;
      }
      read := read + [path.value];
    }
    assert read + [] == read;
    files := Some(read);
  }

  function FilesAfter(read: seq<seq<Byte>>, rest: Option<(seq<seq<Byte>>, nat)>): Option<(seq<seq<Byte>>, nat)> {
    if rest.None? then None else Some((read + rest.value.0, rest.value.1))
  }

  lemma FilesStep(message: seq<Byte>, at: nat, count: nat, read: seq<seq<Byte>>)
    requires count > 0
    ensures var length := ReadUint(message, at, 4);
            FilesAfter(read, DecodeFiles(message, at, count))
            == if length.None? || length.value == 0 || at + 4 + length.value > |message|
                  || !ValidPath(message[at + 4..at + 4 + length.value]) then None
               else FilesAfter(read + [message[at + 4..at + 4 + length.value]],
                               DecodeFiles(message, at + 4 + length.value, count - 1))
  {
    hide ValidPath, Value;
    var length := ReadUint(message, at, 4);
    if length.Some? && at + 4 + length.value <= |message| {
      var path := message[at + 4..at + 4 + length.value];
      var rest := DecodeFiles(message, at + 4 + length.value, count - 1);
      if rest.Some? {
        assert read + [path] + rest.value.0 == read + ([path] + rest.value.0);
      }
    }
  }

  method DecodeRequestMessage(message: seq<Byte>) returns (r: Decoded<Request>)
    ensures r == DecodeRequest(message)
  {
    hide Value, DecodeFiles;
    var header := DecodeHeader(message, OpenFiles);
    if header.Err? {
      return Err(header.error);
    }
    if header.value.id == 0 {
      return Err(InvalidPayload);
    }
    var at := header.value.headerSize;
    var payload := new Reader(message, at);
    var directive := payload.ReadNumber(1);
    var reserved8 := payload.ReadNumber(1);
    var reserved16 := payload.ReadNumber(2);
    var fileCount := payload.ReadNumber(4);
    if directive.None? || reserved8.None? || reserved16.None? || fileCount.None? {
      return Err(InvalidPayload);
    }
    OneByte(message, at);
    OneByte(message, at + 1);
    var presentation := DirectiveOf(directive.value);
    if reserved8.value != 0 || reserved16.value != 0 || presentation.None? || fileCount.value == 0 ||
      fileCount.value > MAX_FILES {
      return Err(InvalidPayload);
    }
    var files := DecodeFileList(payload, fileCount.value);
    if files.None? || payload.cursor != |message| {
      return Err(InvalidPayload);
    }
    r := Ok(Request(header.value.id, presentation.value, files.value));
  }

  lemma OneByte(message: seq<Byte>, at: nat)
    requires at < |message|
    ensures Value(message[at..at + 1]) == message[at]
  {
    assert message[at..at + 1] == [message[at]];
  }

  method EncodeResponseMessage(r: Response) returns (message: seq<Byte>)
    ensures message == EncodeResponse(r)
  {
    hide Little;
    var writer := new Writer();
    writer.WriteHeader(ResponseMessage, 4, r.id);
    writer.WriteUint(StatusCode(r.status), 4);
    assert writer.bytes == EncodeHeader(ResponseMessage, 4, r.id) + Little(StatusCode(r.status), 4);
    message := writer.bytes;
  }

  method DecodeResponseMessage(message: seq<Byte>) returns (r: Decoded<Response>)
    ensures r == DecodeResponse(message)
  {
    hide Value;
    var header := DecodeHeader(message, ResponseMessage);
    if header.Err? {
      return Err(header.error);
    }
    var payload := new Reader(message, header.value.headerSize);
    var code := payload.ReadNumber(4);
    if code.None? || payload.cursor != |message| {
      return Err(InvalidPayload);
    }
    var status := StatusOf(code.value);
    r := if status.None? then Err(InvalidPayload) else Ok(Response(header.value.id, status.value));
  }
}
