/** The Bill resource container: header, host-side tail transform, and the command
    that carries a resource to the device. */
module BillContainer {
  import opened Common
  import opened Bytes
  import Bits
  import opened BillStream

  const HEADER_SIZE: nat := 20

  const MAGIC: seq<Byte> := [0x42, 0x69, 0x6C, 0x6C]

  /** What the header says beside the body size. */
  datatype Header = Header(
    id: Word, resourceType: Half, payloadForm: Byte, generation: Byte, replacement: Word)

  datatype ParseError =
    | TooShort | BadMagic | EmptyRegion | SizeMismatch
    | TypeLimit | GenerationLimit | FormWithoutType | TailTooLong

  datatype Resource = Resource(
    header: Header,
    size: nat,
    bodyBytes: Word,
    preserved: nat,
    applied: bool,
    alreadyTransformed: Option<bool>,
    transformed: seq<Byte>)

  /** Dword k of the header, after the magic. */
  function Field(data: seq<Byte>, k: nat): Word
    requires 4 * k + 4 <= |data|
  {
    FromLE32(data[4 * k..4 * k + 4])
  }

  function HeaderOf(data: seq<Byte>): Header
    requires HEADER_SIZE <= |data|
  {
    var attributes := Field(data, 2);
    Header(Field(data, 1), attributes % 0x10000, attributes / 0x10000 % 256,
           attributes / 0x1000000, Field(data, 4))
  }

  /** The first complaint about a resource, in the order they are checked. */
  function Complaint(data: seq<Byte>): Option<ParseError> {
    if |data| < HEADER_SIZE then Some(TooShort)
    else if data[..4] != MAGIC then Some(BadMagic)
    else
      var h, body := HeaderOf(data), Field(data, 3);
      if body == 0 || h.replacement == 0 then Some(EmptyRegion)
      else if body + HEADER_SIZE != |data| then Some(SizeMismatch)
      else if h.resourceType > 4 then Some(TypeLimit)
      else if h.generation > 2 then Some(GenerationLimit)
      else if h.payloadForm != 0 && h.resourceType == 0 then Some(FormWithoutType)
      else if h.replacement > |data| / 4 - 13 then Some(TailTooLong)
      else None
  }

  function Parse(data: seq<Byte>): Result<Resource, ParseError> {
    match Complaint(data)
    case Some(e) => Err(e)
    case None =>
      var h := HeaderOf(data);
      var preserved := |data| - 4 * h.replacement;
      var tail := Stream(h.id, h.replacement);
      var applied := h.payloadForm != 0;
      Ok(Resource(
           h, |data|, Field(data, 3), preserved, applied,
           if applied then Some(data[preserved..] == tail) else None,
           if applied then data[..preserved] + tail else data))
  }

  // ---------- the encoder ----------

  function Attributes(h: Header): Word {
    Combine(h.resourceType, h.payloadForm, h.generation)
  }

  function Combine(low: nat, middle: nat, high: nat): nat {
    low + 0x10000 * (middle + 256 * high)
  }

  function HeaderBytes(h: Header, bodyBytes: Word): (s: seq<Byte>)
    ensures |s| == HEADER_SIZE
  {
    MAGIC + LE32(h.id) + LE32(Attributes(h)) + LE32(bodyBytes) + LE32(h.replacement)
  }

  function Serialize(h: Header, body: seq<Byte>): seq<Byte>
    requires |body| < WORD_LIMIT
  {
    HeaderBytes(h, |body|) + body
  }

  lemma AttributesSplit(h: Header)
    ensures Attributes(h) % 0x10000 == h.resourceType
    ensures Attributes(h) / 0x10000 % 256 == h.payloadForm
    ensures Attributes(h) / 0x1000000 == h.generation
  {
    var a := Attributes(h);
    assert a / 0x10000 == h.payloadForm + 256 * h.generation;
    assert a / 0x1000000 == a / 0x10000 / 256;
  }

  lemma AttributesJoin(a: Word)
    ensures a == Combine(a % 0x10000, a / 0x10000 % 256, a / 0x1000000)
  {
    assert a / 0x1000000 == a / 0x10000 / 256;
  }

  lemma SerializedFields(h: Header, body: seq<Byte>)
    requires |body| < WORD_LIMIT
    ensures var data := Serialize(h, body);
            |data| == HEADER_SIZE + |body| && data[HEADER_SIZE..] == body &&
            data[..4] == MAGIC && HeaderOf(data) == h && Field(data, 3) == |body|
  {
    hide LE32, FromLE32, Attributes;
    var data, a := Serialize(h, body), Attributes(h);
    assert data[..4] == MAGIC;
    assert data[4..8] == LE32(h.id);
    assert data[8..12] == LE32(a);
    assert data[12..16] == LE32(|body|);
    assert data[16..20] == LE32(h.replacement);
    Words(h.id);
    Words(a);
    Words(|body|);
    Words(h.replacement);
    AttributesSplit(h);
  }

  /** What the container promises about a header and the size of its body. */
  predicate WellFormed(h: Header, bodyBytes: nat) {
    && bodyBytes > 0 && 0 < h.replacement <= (bodyBytes + HEADER_SIZE) / 4 - 13
    && h.resourceType <= 4 && h.generation <= 2
    && (h.resourceType == 0 ==> h.payloadForm == 0)
  }

  /** Parsing a serialized resource recovers its header, and accepts it exactly
      when the header is well formed. */
  lemma ParseSerialized(h: Header, body: seq<Byte>)
    requires |body| < WORD_LIMIT
    ensures var r := Parse(Serialize(h, body));
            (r.Ok? <==> WellFormed(h, |body|)) &&
            (r.Ok? ==> r.value.header == h && r.value.size == |body| + HEADER_SIZE)
  {
    SerializedFields(h, body);
  }

  /** Every accepted resource is the serialization of its own header and body. */
  lemma AcceptedIsSerialized(data: seq<Byte>)
    requires Parse(data).Ok?
    ensures var r := Parse(data).value;
            r.bodyBytes == |data| - HEADER_SIZE && WellFormed(r.header, r.bodyBytes) &&
            data == Serialize(r.header, data[HEADER_SIZE..])
  {
    hide Field, HeaderBytes, Stream;
    HeaderRead(data);
    assert data == data[..20] + data[20..];
  }

  lemma HeaderRead(data: seq<Byte>)
    requires |data| >= HEADER_SIZE && data[..4] == MAGIC
    ensures data[..20] == HeaderBytes(HeaderOf(data), Field(data, 3))
  {
    hide LE32, FromLE32;
    AttributesJoin(Field(data, 2));
    WordBytes(data[4..8]);
    WordBytes(data[8..12]);
    WordBytes(data[12..16]);
    WordBytes(data[16..20]);
    assert Attributes(HeaderOf(data)) == Field(data, 2);
    assert data[..20] == data[..4] + data[4..8] + data[8..12] + data[12..16] + data[16..20];
  }

  // ---------- the tail transform ----------

  lemma SameFields(a: seq<Byte>, b: seq<Byte>)
    requires |a| == |b| >= HEADER_SIZE && a[..HEADER_SIZE] == b[..HEADER_SIZE]
    ensures HeaderOf(a) == HeaderOf(b) && Field(a, 3) == Field(b, 3)
    ensures Complaint(a) == Complaint(b)
  {
    hide FromLE32;
    assert forall k :: 0 <= k < 20 ==> a[k] == a[..20][k] == b[k];
    assert a[..4] == b[..4];
    assert a[4..8] == b[4..8];
    assert a[8..12] == b[8..12];
    assert a[12..16] == b[12..16];
    assert a[16..20] == b[16..20];
  }

  /** The transform keeps the size, the header and at least 52 leading bytes; what
      it yields parses to the same description and is its own transform. */
  lemma TransformKeepsHeader(data: seq<Byte>)
    requires Parse(data).Ok?
    ensures var r := Parse(data).value;
            && |r.transformed| == |data|
            && 52 <= r.preserved == |data| - 4 * r.header.replacement < |data|
            && r.transformed[..r.preserved] == data[..r.preserved]
            && Parse(r.transformed) == Ok(r.(alreadyTransformed := if r.applied then Some(true) else None))
    ensures var r := Parse(data).value;
            (r.applied ==> r.transformed[r.preserved..] == Stream(r.header.id, r.header.replacement)) &&
            (r.transformed == data <==> r.alreadyTransformed != Some(false))
  {
    hide Stream, Field;
    var r := Parse(data).value;
    var h, p := r.header, r.preserved;
    assert 4 * (|data| / 4) <= |data|;
    if r.applied {
      var tail := Stream(h.id, h.replacement);
      assert r.transformed == data[..p] + tail;
      assert r.transformed[..20] == data[..20];
      assert data == data[..p] + data[p..];
      SameFields(data, r.transformed);
    }
  }

  /** Which resources are transformed, by the bytes themselves: the payload form is
      byte 10. Form zero leaves the resource as it is; with any other the last dwords,
      as many as dword 4 says, become the stream of the id in dword 1, and the report
      says whether they were that stream before. */
  lemma TransformMeans(data: seq<Byte>)
    requires Parse(data).Ok?
    ensures |data| >= HEADER_SIZE
    ensures var r, id, count := Parse(data).value, FromLE32(data[4..8]), FromLE32(data[16..20]);
            && 0 < 4 * count < |data|
            && (r.applied <==> data[10] != 0)
            && (data[10] == 0 ==> r.transformed == data && r.alreadyTransformed == None)
            && (data[10] != 0 ==>
                  && |r.transformed| == |data|
                  && r.transformed[..|data| - 4 * count] == data[..|data| - 4 * count]
                  && r.transformed[|data| - 4 * count..] == Stream(id, count)
                  && r.alreadyTransformed == Some(data[|data| - 4 * count..] == Stream(id, count)))
  {
    hide Stream, FromLE32;
    AttributeBytes(data);
  }

  lemma AttributeBytes(data: seq<Byte>)
    requires |data| >= HEADER_SIZE
    ensures var h := HeaderOf(data);
            h.resourceType == FromLE16(data[8..10]) && h.payloadForm == data[10] && h.generation == data[11]
  {
    var low, a := FromLE16(data[8..10]), Field(data, 2);
    var middle: nat, high: nat := data[10], data[11];
    assert a == Combine(low, middle, high);
    assert a / 0x10000 == middle + 256 * high;
    assert a / 0x1000000 == a / 0x10000 / 256;
  }

  /** What is wrong with a resource, by its bytes, when everything checked before is
      right. */
  predicate Wrong(data: seq<Byte>, e: ParseError)
    requires |data| >= HEADER_SIZE
  {
    var resourceType, body, count := FromLE16(data[8..10]), FromLE32(data[12..16]), FromLE32(data[16..20]);
    match e
    case TooShort => false
    case BadMagic => data[..4] != [0x42, 0x69, 0x6C, 0x6C]
    case EmptyRegion => data[..4] == [0x42, 0x69, 0x6C, 0x6C] && (body == 0 || count == 0)
    case SizeMismatch => body > 0 && count > 0 && body + 20 != |data|
    case TypeLimit => body + 20 == |data| && resourceType > 4
    case GenerationLimit => body + 20 == |data| && resourceType <= 4 && data[11] > 2
    case FormWithoutType => data[11] <= 2 && data[10] != 0 && resourceType == 0
    case TailTooLong => data[11] <= 2 && (data[10] == 0 || resourceType > 0) && count + 13 > |data| / 4
  }

  predicate NothingWrong(data: seq<Byte>)
    requires |data| >= HEADER_SIZE
  {
    var resourceType, body, count := FromLE16(data[8..10]), FromLE32(data[12..16]), FromLE32(data[16..20]);
    && data[..4] == [0x42, 0x69, 0x6C, 0x6C] && body > 0 && count > 0 && body + 20 == |data|
    && resourceType <= 4 && data[11] <= 2 && (data[10] == 0 || resourceType > 0)
    && count + 13 <= |data| / 4
  }

  /** Exactly which bytes are accepted, and for which reason others are refused. */
  lemma RefusalMeans(data: seq<Byte>)
    ensures Parse(data).Ok? <==> |data| >= HEADER_SIZE && NothingWrong(data)
    ensures Parse(data) == Err(TooShort) <==> |data| < 20
    ensures |data| >= HEADER_SIZE && Parse(data).Err? ==> Wrong(data, Parse(data).error)
  {
    hide FromLE32, FromLE16, Stream;
    if |data| >= 20 {
      AttributeBytes(data);
    }
  }

  // ---------- the command ----------

  datatype CommandError =
    OffsetRange | Unaligned | Rejected(error: ParseError) | TooLarge | UnknownDirection

  /** The high half of the command word for each pool direction. */
  function CommandBase(direction: string): Option<Word> {
    if direction == "low-to-high" then Some(0x00010000)
    else if direction == "high-to-low" then Some(0x00040000)
    else None
  }

  function BuildCommand(data: seq<Byte>, offset: int, direction: string): Result<seq<Byte>, CommandError> {
    if offset < 0 || offset > 0xFFFFFFFF then Err(OffsetRange)
    else if |data| % 4 != 0 then Err(Unaligned)
    else
      match Parse(data)
      case Err(e) => Err(Rejected(e))
      case Ok(r) =>
        var total := |data| / 4 + 2;
        if total >= 0x10000 then Err(TooLarge)
        else
          match CommandBase(direction)
          case None => Err(UnknownDirection)
          case Some(base) =>
            CommandWordSplits(base, total);
            Ok(LE32(Bits.Or(base, total)) + LE32(offset) + r.transformed)
  }

  lemma CommandWordSplits(base: Word, total: Half)
    requires base == 0x10000 || base == 0x40000
    ensures Bits.Or(base, total) == base + total
    ensures (base + total) % 0x10000 == total && (base + total) / 0x10000 == base / 0x10000
  {
    hide Bits.Or, Bits.Pow2;
    Bits.HalfWordPowers();
    Bits.OrDisjoint(base / 0x10000, total, 16);
  }

  datatype Envelope = Envelope(direction: string, offset: Word, resource: seq<Byte>)

  /** What a receiver reads back from a command. */
  function OpenCommand(command: seq<Byte>): Option<Envelope> {
    if |command| < 8 then None
    else
      var word := FromLE32(command[..4]);
      if word % 0x10000 * 4 != |command| then None
      else if word / 0x10000 == 1 then
        Some(Envelope("low-to-high", FromLE32(command[4..8]), command[8..]))
      else if word / 0x10000 == 4 then
        Some(Envelope("high-to-low", FromLE32(command[4..8]), command[8..]))
      else None
  }

  /** Direction, offset and transformed resource come back from every command that
      can be built, and the low half of its first word is its length in dwords. */
  lemma CommandRoundTrip(data: seq<Byte>, offset: int, direction: string)
    requires BuildCommand(data, offset, direction).Ok?
    ensures Parse(data).Ok?
    ensures var command := BuildCommand(data, offset, direction).value;
            && OpenCommand(command) == Some(Envelope(direction, offset, Parse(data).value.transformed))
            && |command| % 4 == 0 && FromLE32(command[..4]) % 0x10000 == |command| / 4
  {
    hide Parse, OpenCommand, LE32, FromLE32, Bits.Or;
    TransformKeepsHeader(data);
    CommandWordSplits(CommandBase(direction).value, |data| / 4 + 2);
    OpenSealed(direction, offset, Parse(data).value.transformed);
  }

  /** When a command can be built, and the first reason when it cannot. */
  lemma CommandMeans(data: seq<Byte>, offset: int, direction: string)
    ensures BuildCommand(data, offset, direction).Ok? <==>
              && 0 <= offset < 0x100000000 && |data| % 4 == 0 && Parse(data).Ok? && |data| / 4 < 0xFFFE
              && (direction == "low-to-high" || direction == "high-to-low")
    ensures BuildCommand(data, offset, direction).Err? ==>
              match BuildCommand(data, offset, direction).error
              case OffsetRange => offset < 0 || offset >= 0x100000000
              case Unaligned => 0 <= offset < 0x100000000 && |data| % 4 != 0
              case Rejected(e) => 0 <= offset < 0x100000000 && |data| % 4 == 0 && Parse(data) == Err(e)
              case TooLarge => |data| % 4 == 0 && Parse(data).Ok? && |data| / 4 >= 0xFFFE
              case UnknownDirection => Parse(data).Ok? && |data| / 4 < 0xFFFE && CommandBase(direction) == None
  {
    hide Parse, Bits.Or, LE32;
  }

  lemma OpenSealed(direction: string, offset: Word, resource: seq<Byte>)
    requires CommandBase(direction).Some? && |resource| % 4 == 0 && |resource| / 4 + 2 < 0x10000
    ensures var command := LE32(CommandBase(direction).value + (|resource| / 4 + 2)) + LE32(offset) + resource;
            && OpenCommand(command) == Some(Envelope(direction, offset, resource))
            && |command| % 4 == 0 && FromLE32(command[..4]) % 0x10000 == |command| / 4
  {
    hide LE32, FromLE32;
    var word: Word := CommandBase(direction).value + (|resource| / 4 + 2);
    var command := LE32(word) + LE32(offset) + resource;
    Words(word);
    Words(offset);
    assert command[..4] == LE32(word);
    assert command[4..8] == LE32(offset);
    assert command[8..] == resource;
  }

  /** Sending the transformed resource sends the very same command. */
  lemma TransformedCommand(data: seq<Byte>, offset: int, direction: string)
    requires Parse(data).Ok?
    ensures BuildCommand(Parse(data).value.transformed, offset, direction)
            == BuildCommand(data, offset, direction)
  {
    hide Parse;
    TransformKeepsHeader(data);
  }

  /** Two commands are equal exactly when they carry the same three things. */
  lemma CommandsAgree(a: seq<Byte>, i: int, x: string, b: seq<Byte>, j: int, y: string)
    requires BuildCommand(a, i, x).Ok? && BuildCommand(b, j, y).Ok?
    ensures Parse(a).Ok? && Parse(b).Ok?
    ensures BuildCommand(a, i, x) == BuildCommand(b, j, y)
            <==> i == j && x == y && Parse(a).value.transformed == Parse(b).value.transformed
  {
    hide Parse;
    CommandRoundTrip(a, i, x);
    CommandRoundTrip(b, j, y);
    if Parse(a).value.transformed == Parse(b).value.transformed {
      TransformKeepsHeader(a);
      TransformKeepsHeader(b);
    }
  }
}
