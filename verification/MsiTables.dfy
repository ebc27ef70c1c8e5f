/** Tables of an installer database: every column stored behind the one before it,
    integers biased so that a raw zero can stand for null, strings by reference. */
module MsiTables {
  import opened Common
  import opened Bytes
  import Bits

  type Name = seq<Byte>

  datatype TableError = BadSize | BadWidth | NullValue | DanglingReference

  datatype Column = Column(name: Name, number: Half, attributes: Half)

  datatype Value = Null | Integer(value: Word) | Text(text: seq<Byte>)

  type Row = map<Name, Value>

  type Width = w: nat | w == 2 || w == 4 witness 2

  predicate IsString(c: Column) {
    c.attributes / 0x800 % 2 == 1
  }

  function WidthOf(c: Column): Option<Width> {
    if IsString(c) then Some(2)
    else
      var w := c.attributes % 256;
      if w == 2 || w == 4 then Some(w) else None
  }

  // ---------- biased integers ----------

  function Bias(w: Width): Word {
    if w == 2 then 0x8000 else 0x80000000
  }

  predicate Fits(w: Width, raw: Word) {
    raw < 2 * Bias(w)
  }

  lemma Flip(w: Width, raw: Word)
    requires Fits(w, raw)
    ensures Bits.Xor(raw, Bias(w)) == if raw < Bias(w) then raw + Bias(w) else raw - Bias(w)
  {
    hide Bits.Pow2, Bits.Xor;
    Bits.HalfWordPowers();
    Bits.XorTop(raw, if w == 2 then 15 else 31);
  }

  function DecodeInteger(raw: Word, w: Width): (v: Option<Word>)
    requires Fits(w, raw)
    ensures v.Some? ==> Fits(w, v.value)
  {
    Flip(w, raw);
    if raw == 0 then None else Some(Bits.Xor(raw, Bias(w)))
  }

  function EncodeInteger(v: Option<Word>, w: Width): (raw: Word)
    requires v.Some? ==> Fits(w, v.value)
    ensures Fits(w, raw)
  {
    match v
    case None => 0
    case Some(n) =>
      Flip(w, n);
      Bits.Xor(n, Bias(w))
  }

  /** Every integer of the width survives encoding but one: the bias itself, whose
      code is that of null. No raw value decodes to it. */
  lemma IntegerRoundTrip(v: Word, raw: Word, w: Width)
    requires Fits(w, v) && Fits(w, raw)
    ensures DecodeInteger(EncodeInteger(Some(v), w), w) == if v == Bias(w) then None else Some(v)
    ensures DecodeInteger(EncodeInteger(None, w), w) == None
    ensures EncodeInteger(DecodeInteger(raw, w), w) == raw && DecodeInteger(raw, w) != Some(Bias(w))
  {
    hide Bits.Xor;
    Flip(w, v);
    Flip(w, raw);
    Flip(w, EncodeInteger(Some(v), w));
    if raw != 0 {
      Flip(w, DecodeInteger(raw, w).value);
    }
  }

  // ---------- packed columns ----------

  function Pack(w: Width, raw: Word): (b: seq<Byte>)
    requires Fits(w, raw)
    ensures |b| == w
  {
    if w == 2 then LE16(raw) else LE32(raw)
  }

  function Unpack(w: Width, b: seq<Byte>): (raw: Word)
    requires |b| == w
    ensures Fits(w, raw)
  {
    if w == 2 then FromLE16(b) else FromLE32(b)
  }

  predicate AllFit(w: Width, raws: seq<Word>) {
    forall r <- raws :: Fits(w, r)
  }

  function PackAll(w: Width, raws: seq<Word>): (b: seq<Byte>)
    requires AllFit(w, raws)
    ensures |b| == w * |raws|
  {
    if raws == [] then [] else Pack(w, raws[0]) + PackAll(w, raws[1..])
  }

  function UnpackAll(w: Width, b: seq<Byte>, n: nat): (raws: seq<Word>)
    requires |b| == w * n
    ensures |raws| == n && AllFit(w, raws)
  {
    if n == 0 then [] else [Unpack(w, b[..w])] + UnpackAll(w, b[w..], n - 1)
  }

  lemma {:induction false} UnpackPacked(w: Width, raws: seq<Word>)
    requires AllFit(w, raws)
    ensures UnpackAll(w, PackAll(w, raws), |raws|) == raws
  {
    if raws != [] {
      hide LE16, LE32, FromLE16, FromLE32;
      assert Fits(w, raws[0]);
      UnpackPacked(w, raws[1..]);
      Words(raws[0]);
      if w == 2 {
        Halves(raws[0]);
      }
      var b := PackAll(w, raws);
      assert b[..w] == Pack(w, raws[0]);
      assert b[w..] == PackAll(w, raws[1..]);
    }
  }

  lemma {:induction false} PackUnpacked(w: Width, b: seq<Byte>, n: nat)
    requires |b| == w * n
    ensures PackAll(w, UnpackAll(w, b, n)) == b
  {
    if n > 0 {
      hide LE16, LE32, FromLE16, FromLE32;
      PackUnpacked(w, b[w..], n - 1);
      if w == 2 {
        HalfBytes(b[..w]);
      } else {
        WordBytes(b[..w]);
      }
      var raws := UnpackAll(w, b, n);
      assert raws[1..] == UnpackAll(w, b[w..], n - 1);
      assert b == b[..w] + b[w..];
    }
  }

  // ---------- reading a table ----------

  /** The bytes one row takes; none when a column has an unsupported width. */
  function RowWidth(columns: seq<Column>): Option<nat> {
    if columns == [] then Some(0)
    else
      match (WidthOf(columns[0]), RowWidth(columns[1..]))
      case (Some(w), Some(rest)) => Some(w + rest)
      case _ => None
  }

  function DecodeCell(c: Column, w: Width, raw: Word, strings: Strings): Result<Value, TableError>
    requires Fits(w, raw)
  {
    if IsString(c) then
      if raw < |strings| then Ok(Text(strings[raw])) else Err(DanglingReference)
    else
      match DecodeInteger(raw, w)
      case None => Ok(Null)
      case Some(v) => Ok(Integer(v))
  }

  function DecodeCells(c: Column, w: Width, raws: seq<Word>, strings: Strings): (r: Result<seq<Value>, TableError>)
    requires AllFit(w, raws)
    ensures r.Ok? ==> |r.value| == |raws|
  {
    if raws == [] then Ok([])
    else
      match (DecodeCell(c, w, raws[0], strings), DecodeCells(c, w, raws[1..], strings))
      case (Ok(v), Ok(vs)) => Ok([v] + vs)
      case _ => Err(DanglingReference)
  }

  lemma RowsSplit(w: nat, rest: nat, rows: nat)
    ensures (w + rest) * rows == w * rows + rest * rows
  {}

  /** Column after column, `b` being what is left of the stream. */
  function DecodeColumns(b: seq<Byte>, columns: seq<Column>, rows: nat, strings: Strings)
    : (r: Result<seq<seq<Value>>, TableError>)
    requires RowWidth(columns).Some? && |b| == RowWidth(columns).value * rows
    ensures r.Ok? ==> |r.value| == |columns| && forall c <- r.value :: |c| == rows
    ensures r.Err? ==> r.error == DanglingReference
  {
    if columns == [] then Ok([])
    else
      var w := WidthOf(columns[0]).value;
      RowsSplit(w, RowWidth(columns[1..]).value, rows);
      var n := w * rows;
      match (DecodeCells(columns[0], w, UnpackAll(w, b[..n], rows), strings),
             DecodeColumns(b[n..], columns[1..], rows, strings))
      case (Ok(c), Ok(cs)) => Ok([c] + cs)
      case _ => Err(DanglingReference)
  }

  /** One row from its first n columns; of columns with one name the last counts. */
  function RowUpTo(columns: seq<Column>, cells: seq<seq<Value>>, r: nat, n: nat): Row
    requires n <= |columns| == |cells| && forall c <- cells :: r < |c|
  {
    if n == 0 then map[] else RowUpTo(columns, cells, r, n - 1)[columns[n - 1].name := cells[n - 1][r]]
  }

  function RowsUpTo(columns: seq<Column>, cells: seq<seq<Value>>, n: nat): (rows: seq<Row>)
    requires |columns| == |cells| && forall c <- cells :: n <= |c|
    ensures |rows| == n
  {
    if n == 0 then []
    else RowsUpTo(columns, cells, n - 1) + [RowUpTo(columns, cells, n - 1, |columns|)]
  }

  function Table(b: seq<Byte>, columns: seq<Column>, strings: Strings): Result<seq<Row>, TableError> {
    match RowWidth(columns)
    case None => Err(BadWidth)
    case Some(w) =>
      if w == 0 || |b| % w != 0 then Err(BadSize)
      else
        var rows := |b| / w;
        match DecodeColumns(b, columns, rows, strings)
        case Err(e) => Err(e)
        case Ok(cells) => Ok(RowsUpTo(columns, cells, rows))
  }

  /** One step of the column loop: the column at the head of the rest. */
  lemma ColumnStep(b: seq<Byte>, columns: seq<Column>, rows: nat, strings: Strings, done: seq<seq<Value>>)
    requires columns != [] && RowWidth(columns).Some? && |b| == RowWidth(columns).value * rows
    ensures RowWidth(columns[1..]).Some? && WidthOf(columns[0]).Some?
    ensures var n := WidthOf(columns[0]).value * rows;
            && n <= |b| && |b| - n == RowWidth(columns[1..]).value * rows
            && Prefixed(done, DecodeColumns(b, columns, rows, strings)) ==
               match DecodeCells(columns[0], WidthOf(columns[0]).value,
                                 UnpackAll(WidthOf(columns[0]).value, b[..n], rows), strings)
               case Err(_) => Err(DanglingReference)
               case Ok(c) => Prefixed(done + [c], DecodeColumns(b[n..], columns[1..], rows, strings))
  {
    hide DecodeCells, UnpackAll, WidthOf;
    var w := WidthOf(columns[0]).value;
    RowsSplit(w, RowWidth(columns[1..]).value, rows);
    var rest := DecodeColumns(b[w * rows..], columns[1..], rows, strings);
    var cells := DecodeCells(columns[0], w, UnpackAll(w, b[..w * rows], rows), strings);
    assert rest.Ok? && cells.Ok? ==>
        done + ([cells.value] + rest.value) == done + [cells.value] + rest.value;
  }

  lemma ColumnsStep(columns: seq<Column>, k: nat)
    requires k < |columns|
    ensures columns[k..][0] == columns[k] && columns[k..][1..] == columns[k + 1..]
  {}

  method RowSize(columns: seq<Column>) returns (size: Option<nat>)
    ensures size == RowWidth(columns)
  {
    var sum := 0;
    for k := 0 to |columns|
      invariant RowWidth(columns) == match RowWidth(columns[k..])
                                     case None => None
                                     case Some(w) => Some(sum + w)
    {
      ColumnsStep(columns, k);
      match WidthOf(columns[k]) {
        case None => return None;
        case Some(w) => sum := sum + w;
      }
    }
    return Some(sum);
  }

  method ReadValues(b: seq<Byte>, columns: seq<Column>, rows: nat, strings: Strings)
    returns (r: Result<seq<seq<Value>>, TableError>)
    requires RowWidth(columns).Some? && |b| == RowWidth(columns).value * rows
    ensures r == DecodeColumns(b, columns, rows, strings)
  {
    hide DecodeColumns, DecodeCells, WidthOf, UnpackAll;
    var decoded: seq<seq<Value>> := [];
    var offset := 0;
    assert b[0..] == b && columns[0..] == columns;
    NothingBefore(DecodeColumns(b, columns, rows, strings));
    for k := 0 to |columns|
      invariant RowWidth(columns[k..]).Some? && offset <= |b|
      invariant |b| - offset == RowWidth(columns[k..]).value * rows
      invariant DecodeColumns(b, columns, rows, strings) ==
                Prefixed(decoded, DecodeColumns(b[offset..], columns[k..], rows, strings))
    {
      ColumnsStep(columns, k);
      ColumnStep(b[offset..], columns[k..], rows, strings, decoded);
      var width := WidthOf(columns[k]).value;
      var n := width * rows;
      assert b[offset..][..n] == b[offset..offset + n];
      assert b[offset..][n..] == b[offset + n..];
      var values := DecodeCells(columns[k], width, UnpackAll(width, b[offset..offset + n], rows), strings);
      if values.Err? {
        return Err(DanglingReference);
      }
      decoded := decoded + [values.value];
      offset := offset + n;
    }
    NoColumns(b[offset..], columns[|columns|..], rows, strings);
    assert decoded + [] == decoded;
    return Ok(decoded);
  }

  lemma NoColumns(b: seq<Byte>, columns: seq<Column>, rows: nat, strings: Strings)
    requires columns == [] && b == []
    ensures DecodeColumns(b, columns, rows, strings) == Ok([])
  {}

  method ReadTable(b: seq<Byte>, columns: seq<Column>, strings: Strings)
    returns (r: Result<seq<Row>, TableError>)
    ensures r == Table(b, columns, strings)
  {
    var size := RowSize(columns);
    if size.None? {
      return Err(BadWidth);
    }
    var rowWidth := size.value;
    if rowWidth == 0 || |b| % rowWidth != 0 {
      return Err(BadSize);
    }
    var rows := |b| / rowWidth;
    var decoded := ReadValues(b, columns, rows, strings);
    if decoded.Err? {
      return Err(decoded.error);
    }
    var result := BuildRows(columns, decoded.value, rows);
    return Ok(result);
  }

  method BuildRows(columns: seq<Column>, cells: seq<seq<Value>>, rows: nat) returns (result: seq<Row>)
    requires |columns| == |cells| && forall c <- cells :: |c| == rows
    ensures result == RowsUpTo(columns, cells, rows)
  {
    result := [];
    for r := 0 to rows
      invariant result == RowsUpTo(columns, cells, r)
    {
      var row: Row := map[];
      for c := 0 to |columns|
        invariant row == RowUpTo(columns, cells, r, c)
      {
        row := row[columns[c].name := cells[c][r]];
      }
      result := result + [row];
    }
  }

  // ---------- writing a table ----------

  function IndexOf(strings: Strings, s: seq<Byte>): (i: nat)
    requires s in strings
    ensures i < |strings| && strings[i] == s
  {
    if strings[0] == s then 0 else 1 + IndexOf(strings[1..], s)
  }

  /** A value the column can hold: a pooled string within reach of a two-byte
      reference, null, or an integer of the width other than the bias. */
  predicate Storable(c: Column, w: Width, v: Value, strings: Strings) {
    if IsString(c) then v.Text? && v.text in strings && IndexOf(strings, v.text) < 0x10000
    else v.Null? || (v.Integer? && Fits(w, v.value) && v.value != Bias(w))
  }

  function EncodeCell(c: Column, w: Width, v: Value, strings: Strings): (raw: Word)
    requires WidthOf(c) == Some(w) && Storable(c, w, v, strings)
    ensures Fits(w, raw)
  {
    match v
    case Text(s) => IndexOf(strings, s)
    case Null => EncodeInteger(None, w)
    case Integer(n) => EncodeInteger(Some(n), w)
  }

  lemma CellRoundTrip(c: Column, w: Width, v: Value, strings: Strings)
    requires WidthOf(c) == Some(w) && Storable(c, w, v, strings)
    ensures DecodeCell(c, w, EncodeCell(c, w, v, strings), strings) == Ok(v)
  {
    hide EncodeInteger, DecodeInteger;
    IntegerRoundTrip(if v.Integer? then v.value else 0, 0, w);
  }

  predicate ColumnStorable(c: Column, rows: seq<Row>, strings: Strings) {
    WidthOf(c).Some? &&
    forall row <- rows :: c.name in row && Storable(c, WidthOf(c).value, row[c.name], strings)
  }

  predicate TableStorable(columns: seq<Column>, rows: seq<Row>, strings: Strings) {
    forall c <- columns :: ColumnStorable(c, rows, strings)
  }

  function EncodeCells(c: Column, rows: seq<Row>, strings: Strings): (raws: seq<Word>)
    requires ColumnStorable(c, rows, strings)
    ensures |raws| == |rows| && AllFit(WidthOf(c).value, raws)
  {
    if rows == [] then []
    else
      [EncodeCell(c, WidthOf(c).value, rows[0][c.name], strings)] + EncodeCells(c, rows[1..], strings)
  }

  function EncodeTable(columns: seq<Column>, rows: seq<Row>, strings: Strings): seq<Byte>
    requires TableStorable(columns, rows, strings)
  {
    if columns == [] then []
    else
      assert ColumnStorable(columns[0], rows, strings);
      PackAll(WidthOf(columns[0]).value, EncodeCells(columns[0], rows, strings))
      + EncodeTable(columns[1..], rows, strings)
  }

  function ValuesOf(name: Name, rows: seq<Row>): (vs: seq<Value>)
    requires forall row <- rows :: name in row
    ensures |vs| == |rows|
  {
    if rows == [] then [] else [rows[0][name]] + ValuesOf(name, rows[1..])
  }

  function Transposed(columns: seq<Column>, rows: seq<Row>): (cells: seq<seq<Value>>)
    requires forall c <- columns, row <- rows :: c.name in row
    ensures |cells| == |columns| && forall c <- cells :: |c| == |rows|
  {
    if columns == [] then [] else [ValuesOf(columns[0].name, rows)] + Transposed(columns[1..], rows)
  }

  lemma {:induction false} CellsRoundTrip(c: Column, rows: seq<Row>, strings: Strings)
    requires ColumnStorable(c, rows, strings)
    ensures DecodeCells(c, WidthOf(c).value, EncodeCells(c, rows, strings), strings) == Ok(ValuesOf(c.name, rows))
  {
    hide WidthOf, Storable, DecodeCell, EncodeCell;
    if rows != [] {
      assert rows[0] in rows;
      CellRoundTrip(c, WidthOf(c).value, rows[0][c.name], strings);
      CellsRoundTrip(c, rows[1..], strings);
      var raws := EncodeCells(c, rows, strings);
      assert raws[1..] == EncodeCells(c, rows[1..], strings);
    }
  }

  lemma ColumnInFront(w: Width, raws: seq<Word>, rest: seq<Byte>)
    requires AllFit(w, raws)
    ensures var b, n := PackAll(w, raws) + rest, w * |raws|;
            b[n..] == rest && UnpackAll(w, b[..n], |raws|) == raws
  {
    hide PackAll, UnpackAll, AllFit;
    UnpackPacked(w, raws);
    assert (PackAll(w, raws) + rest)[..w * |raws|] == PackAll(w, raws);
  }

  lemma {:induction false} EncodedSize(columns: seq<Column>, rows: seq<Row>, strings: Strings)
    requires TableStorable(columns, rows, strings)
    ensures RowWidth(columns).Some?
    ensures |EncodeTable(columns, rows, strings)| == RowWidth(columns).value * |rows|
  {
    hide WidthOf, Storable, EncodeCells, PackAll;
    if columns != [] {
      assert ColumnStorable(columns[0], rows, strings);
      EncodedSize(columns[1..], rows, strings);
      RowsSplit(WidthOf(columns[0]).value, RowWidth(columns[1..]).value, |rows|);
    }
  }

  /** Decoding a column that lies in front of the others. */
  lemma DecodeFront(columns: seq<Column>, raws: seq<Word>, rest: seq<Byte>, strings: Strings, vs: seq<Value>,
                    others: seq<seq<Value>>)
    requires columns != [] && RowWidth(columns).Some? && AllFit(WidthOf(columns[0]).value, raws)
    requires |rest| == RowWidth(columns[1..]).value * |raws|
    requires DecodeCells(columns[0], WidthOf(columns[0]).value, raws, strings) == Ok(vs)
    requires DecodeColumns(rest, columns[1..], |raws|, strings) == Ok(others)
    ensures var b := PackAll(WidthOf(columns[0]).value, raws) + rest;
            |b| == RowWidth(columns).value * |raws| &&
            DecodeColumns(b, columns, |raws|, strings) == Ok([vs] + others)
  {
    hide WidthOf, DecodeCells, PackAll, UnpackAll, AllFit;
    var w := WidthOf(columns[0]).value;
    RowsSplit(w, RowWidth(columns[1..]).value, |raws|);
    ColumnInFront(w, raws, rest);
  }

  lemma {:induction false} ColumnsRoundTrip(columns: seq<Column>, rows: seq<Row>, strings: Strings)
    requires TableStorable(columns, rows, strings)
    ensures RowWidth(columns).Some?
    ensures |EncodeTable(columns, rows, strings)| == RowWidth(columns).value * |rows|
    ensures DecodeColumns(EncodeTable(columns, rows, strings), columns, |rows|, strings)
            == Ok(Transposed(columns, rows))
  {
    EncodedSize(columns, rows, strings);
    if columns != [] {
      hide WidthOf, Storable, DecodeCells, DecodeColumns, EncodeCells, PackAll, RowWidth, ValuesOf, AllFit;
      var c := columns[0];
      assert ColumnStorable(c, rows, strings);
      EncodedSize(columns[1..], rows, strings);
      ColumnsRoundTrip(columns[1..], rows, strings);
      CellsRoundTrip(c, rows, strings);
      DecodeFront(columns, EncodeCells(c, rows, strings), EncodeTable(columns[1..], rows, strings), strings,
                  ValuesOf(c.name, rows), Transposed(columns[1..], rows));
    }
  }

  lemma {:induction false} ValueAt(name: Name, rows: seq<Row>, r: nat)
    requires r < |rows| && forall row <- rows :: name in row
    ensures ValuesOf(name, rows)[r] == rows[r][name]
  {
    if r > 0 {
      ValueAt(name, rows[1..], r - 1);
    }
  }

  lemma {:induction false} TransposedAt(columns: seq<Column>, rows: seq<Row>, c: nat, r: nat)
    requires forall c <- columns, row <- rows :: c.name in row
    requires c < |columns| && r < |rows|
    ensures columns[c] in columns && rows[r] in rows
    ensures Transposed(columns, rows)[c][r] == rows[r][columns[c].name]
  {
    if c == 0 {
      ValueAt(columns[0].name, rows, r);
    } else {
      TransposedAt(columns[1..], rows, c - 1, r);
    }
  }

  predicate DistinctNames(columns: seq<Column>) {
    forall i, j :: 0 <= i < j < |columns| ==> columns[i].name != columns[j].name
  }

  lemma NewName(columns: seq<Column>, n: nat)
    requires n < |columns| && DistinctNames(columns)
    ensures forall c | 0 <= c < n :: columns[c].name != columns[n].name
  {}

  lemma {:induction false} CellsHeld(columns: seq<Column>, cells: seq<seq<Value>>, r: nat, n: nat)
    requires n <= |columns| == |cells| && (forall c <- cells :: r < |c|) && DistinctNames(columns)
    ensures var row := RowUpTo(columns, cells, r, n);
            forall c :: 0 <= c < n ==> columns[c].name in row && row[columns[c].name] == cells[c][r]
  {
    hide DistinctNames;
    if n > 0 {
      CellsHeld(columns, cells, r, n - 1);
      NewName(columns, n - 1);
    }
  }

  predicate HasName(columns: seq<Column>, n: nat, name: Name)
    requires n <= |columns|
  {
    exists c :: 0 <= c < n && columns[c].name == name
  }

  lemma {:induction false} NamesHeld(columns: seq<Column>, cells: seq<seq<Value>>, r: nat, n: nat)
    requires n <= |columns| == |cells| && forall c <- cells :: r < |c|
    ensures forall name <- RowUpTo(columns, cells, r, n) :: HasName(columns, n, name)
  {
    hide HasName;
    if n > 0 {
      NamesHeld(columns, cells, r, n - 1);
      NameStays(columns, n - 1);
    }
  }

  lemma NameStays(columns: seq<Column>, n: nat)
    requires n < |columns|
    ensures HasName(columns, n + 1, columns[n].name)
    ensures forall name :: HasName(columns, n, name) ==> HasName(columns, n + 1, name)
  {}

  /** With distinct names a decoded row holds each column's own cell. */
  lemma RowHolds(columns: seq<Column>, cells: seq<seq<Value>>, r: nat, n: nat)
    requires n <= |columns| == |cells| && (forall c <- cells :: r < |c|) && DistinctNames(columns)
    ensures var row := RowUpTo(columns, cells, r, n);
            && (forall c :: 0 <= c < n ==> columns[c].name in row && row[columns[c].name] == cells[c][r])
            && (forall name <- row :: exists c :: 0 <= c < n && columns[c].name == name)
  {
    hide RowUpTo, DistinctNames;
    CellsHeld(columns, cells, r, n);
    NamesHeld(columns, cells, r, n);
    var row := RowUpTo(columns, cells, r, n);
    forall name <- row
      ensures exists c :: 0 <= c < n && columns[c].name == name
    {
      assert HasName(columns, n, name);
    }
  }

  predicate RowsOf(columns: seq<Column>, rows: seq<Row>) {
    forall row <- rows :: row.Keys == set c <- columns :: c.name
  }

  lemma NamesInRows(columns: seq<Column>, rows: seq<Row>)
    requires RowsOf(columns, rows)
    ensures forall c <- columns, row <- rows :: c.name in row
  {
    forall c <- columns, row <- rows
      ensures c.name in row
    {
      assert c.name in row.Keys;
    }
  }

  lemma RowRoundTrip(columns: seq<Column>, rows: seq<Row>, r: nat)
    requires r < |rows| && DistinctNames(columns) && RowsOf(columns, rows)
    requires forall c <- columns, row <- rows :: c.name in row
    ensures RowUpTo(columns, Transposed(columns, rows), r, |columns|) == rows[r]
  {
    hide DistinctNames, Transposed, RowUpTo;
    var cells := Transposed(columns, rows);
    var row := RowUpTo(columns, cells, r, |columns|);
    RowHolds(columns, cells, r, |columns|);
    assert rows[r] in rows;
    forall c | 0 <= c < |columns|
      ensures columns[c].name in rows[r] && row[columns[c].name] == rows[r][columns[c].name]
    {
      TransposedAt(columns, rows, c, r);
    }
    SameRow(columns, row, rows[r]);
  }

  lemma SameRow(columns: seq<Column>, a: Row, b: Row)
    requires b.Keys == set c <- columns :: c.name
    requires forall name <- a :: exists c :: 0 <= c < |columns| && columns[c].name == name
    requires forall c :: 0 <= c < |columns| ==>
               columns[c].name in a && columns[c].name in b && a[columns[c].name] == b[columns[c].name]
    ensures a == b
  {
    forall name <- b
      ensures name in a
    {
      var c :| c in columns && c.name == name;
      var i :| 0 <= i < |columns| && columns[i] == c;
    }
    assert a.Keys == b.Keys;
  }

  lemma {:induction false} RowsRoundTrip(columns: seq<Column>, rows: seq<Row>, n: nat)
    requires n <= |rows| && DistinctNames(columns) && RowsOf(columns, rows)
    requires forall c <- columns, row <- rows :: c.name in row
    ensures RowsUpTo(columns, Transposed(columns, rows), n) == rows[..n]
  {
    if n > 0 {
      RowsRoundTrip(columns, rows, n - 1);
      RowRoundTrip(columns, rows, n - 1);
      assert rows[..n] == rows[..n - 1] + [rows[n - 1]];
    }
  }

  /** Every table a schema of distinct names can store is read back unchanged. */
  lemma TableRoundTrip(columns: seq<Column>, rows: seq<Row>, strings: Strings)
    requires columns != [] && DistinctNames(columns) && RowsOf(columns, rows)
    requires TableStorable(columns, rows, strings)
    ensures Table(EncodeTable(columns, rows, strings), columns, strings) == Ok(rows)
  {
    hide EncodeTable, DecodeColumns, RowsUpTo, Transposed, TableStorable, RowWidth, RowsOf;
    ColumnsRoundTrip(columns, rows, strings);
    NamesInRows(columns, rows);
    RowsRoundTrip(columns, rows, |rows|);
    RowTakesRoom(columns);
    Exact(RowWidth(columns).value, |rows|);
    assert rows[..|rows|] == rows;
  }

  lemma RowTakesRoom(columns: seq<Column>)
    requires columns != [] && RowWidth(columns).Some?
    ensures RowWidth(columns).value > 0
  {}

  // ---------- the slices of a stream ----------

  /** The raw values of every column, as they lie one behind the other. */
  function Slices(b: seq<Byte>, columns: seq<Column>, rows: nat): (s: seq<seq<Word>>)
    requires RowWidth(columns).Some? && |b| == RowWidth(columns).value * rows
    ensures |s| == |columns|
    ensures forall c :: 0 <= c < |columns| ==>
              WidthOf(columns[c]).Some? && |s[c]| == rows && AllFit(WidthOf(columns[c]).value, s[c])
  {
    if columns == [] then []
    else
      var w := WidthOf(columns[0]).value;
      RowsSplit(w, RowWidth(columns[1..]).value, rows);
      [UnpackAll(w, b[..w * rows], rows)] + Slices(b[w * rows..], columns[1..], rows)
  }

  function Joined(columns: seq<Column>, s: seq<seq<Word>>): seq<Byte>
    requires |s| == |columns|
    requires forall c :: 0 <= c < |columns| ==>
               WidthOf(columns[c]).Some? && AllFit(WidthOf(columns[c]).value, s[c])
  {
    if columns == [] then []
    else PackAll(WidthOf(columns[0]).value, s[0]) + Joined(columns[1..], s[1..])
  }

  /** The columns partition the stream, and each is decoded from its own slice. */
  lemma {:induction false} SlicesPartition(b: seq<Byte>, columns: seq<Column>, rows: nat, strings: Strings)
    requires RowWidth(columns).Some? && |b| == RowWidth(columns).value * rows
    ensures Joined(columns, Slices(b, columns, rows)) == b
    ensures var cells := DecodeColumns(b, columns, rows, strings);
            cells.Ok? ==>
              forall c :: 0 <= c < |columns| ==>
                DecodeCells(columns[c], WidthOf(columns[c]).value, Slices(b, columns, rows)[c], strings)
                == Ok(cells.value[c])
  {
    hide WidthOf, DecodeCells, UnpackAll, PackAll;
    if columns != [] {
      var w := WidthOf(columns[0]).value;
      var n := w * rows;
      RowsSplit(w, RowWidth(columns[1..]).value, rows);
      SlicesPartition(b[n..], columns[1..], rows, strings);
      PackUnpacked(w, b[..n], rows);
      var s := Slices(b, columns, rows);
      assert s[1..] == Slices(b[n..], columns[1..], rows);
      assert b == b[..n] + b[n..];
    }
  }

  // ---------- what is accepted, and what it says ----------

  predicate Supported(c: Column) {
    c.attributes / 0x800 % 2 == 1 || c.attributes % 256 == 2 || c.attributes % 256 == 4
  }

  lemma {:induction false} WidthsKnown(columns: seq<Column>)
    ensures RowWidth(columns).Some? <==> forall c <- columns :: Supported(c)
  {
    if columns != [] {
      WidthsKnown(columns[1..]);
      assert WidthOf(columns[0]).Some? <==> Supported(columns[0]);
      assert forall c :: c in columns <==> c == columns[0] || c in columns[1..];
    }
  }

  /** What a raw value of a column stands for: a pooled string, null, or an integer
      with its top bit flipped. */
  predicate StandsFor(c: Column, raw: Word, v: Value, strings: Strings) {
    if IsString(c) then raw < |strings| && v == Text(strings[raw])
    else if raw == 0 then v == Null
    else
      var bias: nat := if c.attributes % 256 == 2 then 0x8000 else 0x80000000;
      v.Integer? && v.value == if raw < bias then raw + bias else raw - bias
  }

  lemma CellMeans(c: Column, raw: Word, strings: Strings)
    requires WidthOf(c).Some? && Fits(WidthOf(c).value, raw)
    ensures var r := DecodeCell(c, WidthOf(c).value, raw, strings);
            && (r.Ok? <==> !IsString(c) || raw < |strings|)
            && (r.Ok? ==> StandsFor(c, raw, r.value, strings))
  {
    hide Bits.Xor;
    Flip(WidthOf(c).value, raw);
  }

  lemma {:induction false} CellsMean(c: Column, raws: seq<Word>, strings: Strings)
    requires WidthOf(c).Some? && AllFit(WidthOf(c).value, raws)
    ensures var r := DecodeCells(c, WidthOf(c).value, raws, strings);
            && (r.Ok? <==> forall i | 0 <= i < |raws| :: !IsString(c) || raws[i] < |strings|)
            && (r.Ok? ==> forall i | 0 <= i < |raws| :: StandsFor(c, raws[i], r.value[i], strings))
  {
    hide IsString, WidthOf, StandsFor, DecodeCell;
    if raws != [] {
      assert raws[0] in raws;
      CellMeans(c, raws[0], strings);
      CellsMean(c, raws[1..], strings);
      assert forall i | 0 < i < |raws| :: raws[i] == raws[1..][i - 1];
      var r := DecodeCells(c, WidthOf(c).value, raws, strings);
      var rest := DecodeCells(c, WidthOf(c).value, raws[1..], strings);
      assert r.Ok? ==> r.value[1..] == rest.value;
      assert forall i | 0 <= i < |raws| - 1 :: raws[1..][i] == raws[i + 1];
    }
  }

  /** Every string reference of a column is to a string of the pool. */
  predicate ColumnResolved(c: Column, raws: seq<Word>, strings: Strings) {
    IsString(c) ==> forall i | 0 <= i < |raws| :: raws[i] < |strings|
  }

  lemma {:induction false} ColumnsMean(b: seq<Byte>, columns: seq<Column>, rows: nat, strings: Strings)
    requires RowWidth(columns).Some? && |b| == RowWidth(columns).value * rows
    ensures var s := Slices(b, columns, rows);
            DecodeColumns(b, columns, rows, strings).Ok? <==>
              forall c | 0 <= c < |columns| :: ColumnResolved(columns[c], s[c], strings)
  {
    hide WidthOf, DecodeCells, UnpackAll, IsString;
    if columns != [] {
      var w, s := WidthOf(columns[0]).value, Slices(b, columns, rows);
      var n := w * rows;
      RowsSplit(w, RowWidth(columns[1..]).value, rows);
      ColumnsMean(b[n..], columns[1..], rows, strings);
      CellsMean(columns[0], UnpackAll(w, b[..n], rows), strings);
      assert s[0] == UnpackAll(w, b[..n], rows) && s[1..] == Slices(b[n..], columns[1..], rows);
      Apart(columns, s, strings);
    }
  }

  lemma Apart(columns: seq<Column>, s: seq<seq<Word>>, strings: Strings)
    requires columns != [] && |s| == |columns|
    ensures (forall c | 0 <= c < |columns| :: ColumnResolved(columns[c], s[c], strings)) <==>
            ColumnResolved(columns[0], s[0], strings)
            && forall c | 0 <= c < |columns| - 1 :: ColumnResolved(columns[1..][c], s[1..][c], strings)
  {
    hide ColumnResolved;
    assert forall c | 0 < c < |columns| :: columns[c] == columns[1..][c - 1] && s[c] == s[1..][c - 1];
    if forall c | 0 <= c < |columns| - 1 :: ColumnResolved(columns[1..][c], s[1..][c], strings) {
      forall c | 0 < c < |columns|
        ensures ColumnResolved(columns[c], s[c], strings)
      {
        assert ColumnResolved(columns[1..][c - 1], s[1..][c - 1], strings);
      }
    }
  }

  /** Which tables are read, why others are not, and what a cell of an accepted one
      is: what the raw value in its column and row stands for. */
  lemma TableMeans(b: seq<Byte>, columns: seq<Column>, strings: Strings)
    ensures var t := Table(b, columns, strings);
            && (t == Err(BadWidth) <==> exists c :: c in columns && !Supported(c))
            && (RowWidth(columns).Some? ==>
                  var w := RowWidth(columns).value;
                  && (t == Err(BadSize) <==> columns == [] || |b| % w != 0)
                  && (columns != [] && |b| % w == 0 ==>
                        && |b| == w * (|b| / w)
                        && var s := Slices(b, columns, |b| / w);
                           && (t.Ok? <==> forall c | 0 <= c < |columns| :: ColumnResolved(columns[c], s[c], strings))
                           && (t.Err? ==> t == Err(DanglingReference))
                           && (t.Ok? ==> |t.value| == |b| / w)))
  {
    hide DecodeColumns, Slices, Supported, ColumnResolved, RowsUpTo;
    WidthsKnown(columns);
    if RowWidth(columns).Some? {
      var w := RowWidth(columns).value;
      if columns != [] {
        RowTakesRoom(columns);
        if |b| % w == 0 {
          ColumnsMean(b, columns, |b| / w, strings);
        }
      } else {
        NoWidth();
      }
    }
  }

  lemma NoWidth()
    ensures RowWidth([]) == Some(0)
  {}

  lemma {:induction false} RowOf(columns: seq<Column>, cells: seq<seq<Value>>, n: nat, r: nat)
    requires |columns| == |cells| && (forall c <- cells :: n <= |c|) && r < n
    ensures RowsUpTo(columns, cells, n)[r] == RowUpTo(columns, cells, r, |columns|)
  {
    hide RowUpTo;
    if r < n - 1 {
      RowOf(columns, cells, n - 1, r);
    }
  }

  /** With distinct names, a cell of an accepted table is what its raw value stands for. */
  lemma CellOf(b: seq<Byte>, columns: seq<Column>, strings: Strings, c: nat, r: nat)
    requires Table(b, columns, strings).Ok? && DistinctNames(columns) && c < |columns|
    requires r < |Table(b, columns, strings).value|
    ensures RowWidth(columns).Some? && RowWidth(columns).value > 0
    ensures var w := RowWidth(columns).value;
            && |b| == w * (|b| / w) && r < |b| / w
            && columns[c].name in Table(b, columns, strings).value[r]
            && StandsFor(columns[c], Slices(b, columns, |b| / w)[c][r],
                         Table(b, columns, strings).value[r][columns[c].name], strings)
  {
    hide DecodeColumns, Slices, StandsFor, RowUpTo, RowsUpTo, DistinctNames, WidthOf, DecodeCells;
    var w := RowWidth(columns).value;
    var rows := |b| / w;
    SlicesPartition(b, columns, rows, strings);
    var cells := DecodeColumns(b, columns, rows, strings).value;
    CellsMean(columns[c], Slices(b, columns, rows)[c], strings);
    RowOf(columns, cells, rows, r);
    RowHolds(columns, cells, r, |columns|);
  }
}
