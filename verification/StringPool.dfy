/** The string pool of an installer database: one stream of record headers, one of
    string bytes. */
module StringPool {
  import opened Common
  import opened Bytes

  datatype PoolError = BadSize | WideReferences | TruncatedLength | PastData | Unconsumed

  // ---------- decoding ----------

  /** The record header at a position: its length, and where the next one starts. */
  function Record(pool: seq<Byte>, at: nat): (r: Result<(Word, nat), PoolError>)
    requires at + 4 <= |pool|
    ensures r.Ok? ==> at + 4 <= r.value.1 <= at + 8 && r.value.1 <= |pool| && r.value.1 % 4 == at % 4
  {
    var length: nat, references: nat := FromLE16(pool[at..at + 2]), FromLE16(pool[at + 2..at + 4]);
    if length == 0 && references != 0 then
      if at + 8 > |pool| then Err(TruncatedLength)
      else Ok((FromLE32(pool[at + 4..at + 8]), at + 8))
    else Ok((length, at + 4))
  }

  /** The strings whose records start at `at` and whose bytes start at `offset`. */
  function Decode(pool: seq<Byte>, at: nat, data: seq<Byte>, offset: nat): Result<Strings, PoolError>
    requires at <= |pool| && (|pool| - at) % 4 == 0 && offset <= |data|
    decreases |pool| - at
  {
    if at == |pool| then
      if offset != |data| then Err(Unconsumed) else Ok([])
    else
      match Record(pool, at)
      case Err(e) => Err(e)
      case Ok((length, next)) =>
        if offset + length > |data| then Err(PastData)
        else Prefixed([data[offset..offset + length]], Decode(pool, next, data, offset + length))
  }

  function Load(pool: seq<Byte>, data: seq<Byte>): Result<Strings, PoolError> {
    if |pool| < 4 || |pool| % 4 != 0 then Err(BadSize)
    else if FromLE16(pool[2..4]) / 0x8000 % 2 == 1 then Err(WideReferences)
    else Prefixed([[]], Decode(pool, 4, data, 0))
  }

  lemma DecodeStep(pool: seq<Byte>, at: nat, data: seq<Byte>, offset: nat, strings: Strings)
    requires at < |pool| && (|pool| - at) % 4 == 0 && offset <= |data|
    ensures var r := Prefixed(strings, Decode(pool, at, data, offset));
            match Record(pool, at)
            case Err(e) => r == Err(e)
            case Ok((length, next)) =>
              var end := offset + length;
              r == if end > |data| then Err(PastData)
                   else Prefixed(strings + [data[offset..end]], Decode(pool, next, data, end))
  {
    hide Record;
    if Record(pool, at).Ok? {
      var (length, next) := Record(pool, at).value;
      if offset + length <= |data| {
        var rest := Decode(pool, next, data, offset + length);
        var text := data[offset..offset + length];
        assert rest.Ok? ==> strings + ([text] + rest.value) == strings + [text] + rest.value;
      }
    }
  }

  lemma DecodeEnd(pool: seq<Byte>, data: seq<Byte>, offset: nat)
    requires offset <= |data|
    ensures Decode(pool, |pool|, data, offset) == if offset != |data| then Err(Unconsumed) else Ok([])
  {}

  method LoadStringPool(pool: seq<Byte>, data: seq<Byte>) returns (r: Result<Strings, PoolError>)
    ensures r == Load(pool, data)
  {
    hide Decode;
    if |pool| < 4 || |pool| % 4 != 0 {
      return Err(BadSize);
    }
    if FromLE16(pool[2..4]) / 0x8000 % 2 == 1 {
      return Err(WideReferences);
    }
    var strings: Strings := [[]];
    var dataOffset, poolOffset := 0, 4;
    while poolOffset < |pool|
      invariant 4 <= poolOffset <= |pool| && (|pool| - poolOffset) % 4 == 0 && dataOffset <= |data|
      invariant Load(pool, data) == Prefixed(strings, Decode(pool, poolOffset, data, dataOffset))
      decreases |pool| - poolOffset
    {
      ghost var at := poolOffset;
      DecodeStep(pool, at, data, dataOffset, strings);
      var length: nat := FromLE16(pool[poolOffset..poolOffset + 2]);
      var references := FromLE16(pool[poolOffset + 2..poolOffset + 4]);
      poolOffset := poolOffset + 4;
      if length == 0 && references != 0 {
        if poolOffset + 4 > |pool| {
          return Err(TruncatedLength);
        }
        length := FromLE32(pool[poolOffset..poolOffset + 4]);
        poolOffset := poolOffset + 4;
      }
      assert Record(pool, at) == Ok((length, poolOffset));
      var end := dataOffset + length;
      if end > |data| {
        return Err(PastData);
      }
      strings := strings + [data[dataOffset..end]];
      dataOffset := end;
    }
    DecodeEnd(pool, data, dataOffset);
    if dataOffset != |data| {
      return Err(Unconsumed);
    }
    assert strings + [] == strings;
    return Ok(strings);
  }

  // ---------- encoding ----------

  /** A string with its reference count, its length in two bytes or escaped. */
  datatype Entry = Short(text: seq<Byte>, references: Half) | Long(text: seq<Byte>, references: Half)

  /** An empty short string has no references: with any, its record would be read
      as an escape. */
  predicate ValidEntry(e: Entry) {
    match e
    case Short(text, references) => |text| < 0x10000 && (text == [] ==> references == 0)
    case Long(text, references) => |text| < WORD_LIMIT && references != 0
  }

  function RecordBytes(e: Entry): seq<Byte>
    requires ValidEntry(e)
  {
    match e
    case Short(text, references) => LE16(|text|) + LE16(references)
    case Long(text, references) => LE16(0) + LE16(references) + LE32(|text|)
  }

  predicate ValidEntries(es: seq<Entry>) {
    forall e <- es :: ValidEntry(e)
  }

  function PoolBytes(es: seq<Entry>): (s: seq<Byte>)
    requires ValidEntries(es)
    ensures |s| % 4 == 0
  {
    if es == [] then [] else RecordBytes(es[0]) + PoolBytes(es[1..])
  }

  function Texts(es: seq<Entry>): Strings {
    if es == [] then [] else [es[0].text] + Texts(es[1..])
  }

  function Concat(strings: Strings): seq<Byte> {
    if strings == [] then [] else strings[0] + Concat(strings[1..])
  }

  lemma RecordOfEntry(pool: seq<Byte>, at: nat, e: Entry, rest: seq<Byte>)
    requires ValidEntry(e) && at <= |pool| && pool[at..] == RecordBytes(e) + rest
    ensures at + 4 <= |pool|
    ensures Record(pool, at) == Ok((|e.text|, at + |RecordBytes(e)|))
  {
    hide LE16, FromLE16, LE32, FromLE32;
    var length: Half := if e.Short? then |e.text| else 0;
    Halves(length);
    Halves(e.references);
    Stretches(pool, at, LE16(length), LE16(e.references), pool[at + 4..]);
    if e.Long? {
      Words(|e.text|);
      Stretches(pool, at + 4, LE32(|e.text|), [], rest);
    }
  }

  lemma {:induction false} DecodeEncoded(pool: seq<Byte>, at: nat, data: seq<Byte>, offset: nat, es: seq<Entry>)
    requires ValidEntries(es) && at <= |pool| && offset <= |data|
    requires pool[at..] == PoolBytes(es) && data[offset..] == Concat(Texts(es))
    ensures (|pool| - at) % 4 == 0 && Decode(pool, at, data, offset) == Ok(Texts(es))
    decreases |es|
  {
    hide Record, RecordBytes;
    if es != [] {
      var e, n := es[0], |es[0].text|;
      RecordOfEntry(pool, at, e, PoolBytes(es[1..]));
      Stretches(pool, at, RecordBytes(e), [], PoolBytes(es[1..]));
      Stretches(data, offset, e.text, [], Concat(Texts(es[1..])));
      DecodeEncoded(pool, at + |RecordBytes(e)|, data, offset + n, es[1..]);
    }
  }

  /** Decoding an encoded list of strings gives it back behind the empty string. */
  lemma PoolRoundTrip(codepage: Half, flags: Half, es: seq<Entry>)
    requires flags < 0x8000 && ValidEntries(es)
    ensures Load(LE16(codepage) + LE16(flags) + PoolBytes(es), Concat(Texts(es))) == Ok([[]] + Texts(es))
  {
    hide LE16, FromLE16, Decode, Concat, Texts, PoolBytes;
    var pool := LE16(codepage) + LE16(flags) + PoolBytes(es);
    Halves(flags);
    Stretches(pool, 0, LE16(codepage), LE16(flags), PoolBytes(es));
    assert FromLE16(pool[2..4]) / 0x8000 == 0;
    DecodeEncoded(pool, 4, Concat(Texts(es)), 0, es);
  }

  /** The entry whose record and bytes are read at a position. */
  function EntryAt(pool: seq<Byte>, at: nat, text: seq<Byte>): Entry
    requires at + 4 <= |pool|
  {
    var references := FromLE16(pool[at + 2..at + 4]);
    if FromLE16(pool[at..at + 2]) == 0 && references != 0 then Long(text, references)
    else Short(text, references)
  }

  lemma EntryOfRecord(pool: seq<Byte>, at: nat, text: seq<Byte>)
    requires at + 4 <= |pool| && Record(pool, at).Ok? && |text| == Record(pool, at).value.0
    ensures var e := EntryAt(pool, at, text);
            e.text == text && ValidEntry(e) && RecordBytes(e) == pool[at..Record(pool, at).value.1]
  {
    hide FromLE16, LE16, FromLE32, LE32;
    var e, next := EntryAt(pool, at, text), Record(pool, at).value.1;
    HalfBytes(pool[at..at + 2]);
    HalfBytes(pool[at + 2..at + 4]);
    assert pool[at..at + 4] == pool[at..at + 2] + pool[at + 2..at + 4];
    if e.Long? {
      WordBytes(pool[at + 4..at + 8]);
      assert pool[at..at + 8] == pool[at..at + 4] + pool[at + 4..at + 8];
    }
  }

  lemma {:induction false} DecodedIsEncoded(pool: seq<Byte>, at: nat, data: seq<Byte>, offset: nat)
    returns (es: seq<Entry>)
    requires at <= |pool| && (|pool| - at) % 4 == 0 && offset <= |data|
    requires Decode(pool, at, data, offset).Ok?
    ensures ValidEntries(es) && pool[at..] == PoolBytes(es) && data[offset..] == Concat(Texts(es))
    ensures Decode(pool, at, data, offset) == Ok(Texts(es))
    decreases |pool| - at
  {
    hide Record, RecordBytes, EntryAt;
    if at == |pool| {
      es := [];
    } else {
      var (length, next) := Record(pool, at).value;
      var text := data[offset..offset + length];
      EntryOfRecord(pool, at, text);
      var rest := DecodedIsEncoded(pool, next, data, offset + length);
      es := [EntryAt(pool, at, text)] + rest;
      assert es[1..] == rest;
      assert pool[at..] == pool[at..next] + pool[next..];
      assert data[offset..] == text + data[offset + length..];
    }
  }

  /** Every accepted pool is the encoding of the strings it yields, which lie in the
      data one behind the other with nothing left out. */
  lemma AcceptedPool(pool: seq<Byte>, data: seq<Byte>) returns (codepage: Half, flags: Half, es: seq<Entry>)
    requires Load(pool, data).Ok?
    ensures flags < 0x8000 && ValidEntries(es)
    ensures pool == LE16(codepage) + LE16(flags) + PoolBytes(es)
    ensures Load(pool, data).value == [[]] + Texts(es)
    ensures Concat(Load(pool, data).value) == data
  {
    es := DecodedIsEncoded(pool, 4, data, 0);
    hide LE16, FromLE16;
    codepage, flags := FromLE16(pool[..2]), FromLE16(pool[2..4]);
    HalfBytes(pool[..2]);
    HalfBytes(pool[2..4]);
    assert pool == pool[..2] + pool[2..4] + pool[4..];
    var strings := Load(pool, data).value;
    assert strings[0] == [] && strings[1..] == Texts(es);
    assert Concat(strings) == [] + Concat(Texts(es));
  }
}
