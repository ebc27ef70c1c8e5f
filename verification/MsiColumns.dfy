/** The catalogue of columns: which columns each table has, in column order. */
module MsiColumns {
  import opened Common
  import opened Bytes
  import opened MsiTables

  datatype Definition = Definition(table: Name, column: Column)

  type Catalogue = map<Name, seq<Column>>

  // ---------- decoding ----------

  /** One row of the catalogue: table and column names by reference, number and
      attributes as biased integers. */
  function DefinitionOf(table: Word, number: Word, name: Word, attributes: Word, strings: Strings)
    : Result<Definition, TableError>
    requires Fits(2, number) && Fits(2, attributes)
  {
    if table >= |strings| then Err(DanglingReference)
    else
      match (DecodeInteger(number, 2), DecodeInteger(attributes, 2))
      case (Some(n), Some(a)) =>
        if name >= |strings| then Err(DanglingReference)
        else Ok(Definition(strings[table], Column(strings[name], n, a)))
      case _ => Err(NullValue)
  }

  predicate FourColumns(values: seq<seq<Word>>, rows: nat) {
    |values| == 4 && forall v <- values :: |v| == rows && AllFit(2, v)
  }

  /** The first n rows, or what is wrong with the first bad one. */
  function Definitions(values: seq<seq<Word>>, rows: nat, n: nat, strings: Strings)
    : (r: Result<seq<Definition>, TableError>)
    requires FourColumns(values, rows) && n <= rows
  {
    if n == 0 then Ok([])
    else
      match Definitions(values, rows, n - 1, strings)
      case Err(e) => Err(e)
      case Ok(ds) =>
        match DefinitionOf(values[0][n - 1], values[1][n - 1], values[2][n - 1], values[3][n - 1], strings)
        case Err(e) => Err(e)
        case Ok(d) => Ok(ds + [d])
  }

  function Append(m: Catalogue, d: Definition): Catalogue {
    m[d.table := (if d.table in m then m[d.table] else []) + [d.column]]
  }

  function Group(ds: seq<Definition>): Catalogue {
    if ds == [] then map[] else Append(Group(ds[..|ds| - 1]), ds[|ds| - 1])
  }

  function Values(b: seq<Byte>, rows: nat, k: nat): (values: seq<seq<Word>>)
    requires |b| == 8 * rows && k <= 4
    ensures |values| == k && forall v <- values :: |v| == rows && AllFit(2, v)
  {
    if k == 0 then []
    else
      var n := 2 * rows;
      Values(b, rows, k - 1) + [UnpackAll(2, b[n * (k - 1)..n * k], rows)]
  }

  function Columns(b: seq<Byte>, strings: Strings): Result<Catalogue, TableError> {
    if |b| % 8 != 0 then Err(BadSize)
    else
      var rows := |b| / 8;
      match Definitions(Values(b, rows, 4), rows, rows, strings)
      case Err(e) => Err(e)
      case Ok(ds) => Ok(Sorted(Group(ds)))
  }

  function Sorted(m: Catalogue): Catalogue {
    map t <- m :: SortByNumber(m[t])
  }

  lemma GroupSnoc(ds: seq<Definition>, d: Definition)
    ensures Group(ds + [d]) == Append(Group(ds), d)
  {
    assert (ds + [d])[..|ds|] == ds;
  }

  method ReadValues(b: seq<Byte>, rows: nat) returns (values: seq<seq<Word>>)
    requires |b| == 8 * rows
    ensures values == Values(b, rows, 4)
  {
    hide UnpackAll;
    values := [];
    var offset := 0;
    for k := 0 to 4
      invariant offset == 2 * rows * k
      invariant values == Values(b, rows, k)
    {
      values := values + [UnpackAll(2, b[offset..offset + 2 * rows], rows)];
      offset := offset + 2 * rows;
    }
  }

  method ReadColumns(b: seq<Byte>, strings: Strings) returns (r: Result<Catalogue, TableError>)
    ensures r == Columns(b, strings)
  {
    hide Values, Group, DecodeInteger, Definitions;
    if |b| % 8 != 0 {
      return Err(BadSize);
    }
    var rows := |b| / 8;
    var values := ReadValues(b, rows);
    var tables: Catalogue := map[];
    ghost var ds: seq<Definition> := [];
    NothingDefined(values, rows, strings);
    for index := 0 to rows
      invariant Definitions(values, rows, index, strings) == Ok(ds)
      invariant tables == Group(ds)
    {
      var tableRef, numberRaw, nameRef, typeRaw :=
        values[0][index], values[1][index], values[2][index], values[3][index];
      RowStep(values, rows, index, strings);
      if tableRef >= |strings| {
        return Err(DanglingReference);
      }
      var table := strings[tableRef];
      assert Fits(2, numberRaw) && Fits(2, typeRaw);
      var number, attributes := DecodeInteger(numberRaw, 2), DecodeInteger(typeRaw, 2);
      if number.None? || attributes.None? {
        return Err(NullValue);
      }
      if table !in tables {
        tables := tables[table := []];
      }
      if nameRef >= |strings| {
        return Err(DanglingReference);
      }
      var column := Column(strings[nameRef], number.value, attributes.value);
      tables := tables[table := tables[table] + [column]];
      GroupSnoc(ds, Definition(table, column));
      ds := ds + [Definition(table, column)];
    }
    return Ok(Sorted(tables));
  }

  lemma NothingDefined(values: seq<seq<Word>>, rows: nat, strings: Strings)
    requires FourColumns(values, rows)
    ensures Definitions(values, rows, 0, strings) == Ok([]) && Group([]) == map[]
  {}

  lemma RowStep(values: seq<seq<Word>>, rows: nat, n: nat, strings: Strings)
    requires FourColumns(values, rows) && n < rows && Definitions(values, rows, n, strings).Ok?
    ensures Fits(2, values[1][n]) && Fits(2, values[3][n])
    ensures match DefinitionOf(values[0][n], values[1][n], values[2][n], values[3][n], strings)
            case Err(e) => Definitions(values, rows, rows, strings) == Err(e)
            case Ok(d) =>
              Definitions(values, rows, n + 1, strings) == Ok(Definitions(values, rows, n, strings).value + [d])
  {
    BadRow(values, rows, n + 1, strings);
    hide DefinitionOf;
  }

  /** A bad row fails the whole catalogue. */
  lemma {:induction false} BadRow(values: seq<seq<Word>>, rows: nat, n: nat, strings: Strings)
    requires FourColumns(values, rows) && n <= rows
    ensures Definitions(values, rows, n, strings).Err? ==>
              Definitions(values, rows, rows, strings) == Definitions(values, rows, n, strings)
    decreases rows - n
  {
    if n < rows {
      BadRow(values, rows, n + 1, strings);
    }
  }

  // ---------- grouping and sorting ----------

  /** The columns of one table in catalogue order. */
  function ColumnsOf(ds: seq<Definition>, table: Name): seq<Column> {
    if ds == [] then []
    else
      var last := ds[|ds| - 1];
      ColumnsOf(ds[..|ds| - 1], table) + if last.table == table then [last.column] else []
  }

  lemma {:induction false} GroupHolds(ds: seq<Definition>, table: Name)
    ensures table in Group(ds) <==> exists d :: d in ds && d.table == table
    ensures table in Group(ds) ==> Group(ds)[table] == ColumnsOf(ds, table)
    ensures table !in Group(ds) ==> ColumnsOf(ds, table) == []
  {
    if ds != [] {
      var before, last := ds[..|ds| - 1], ds[|ds| - 1];
      GroupHolds(before, table);
      assert ds == before + [last];
    }
  }

  function Insert(c: Column, sorted: seq<Column>): seq<Column> {
    if sorted == [] || c.number < sorted[|sorted| - 1].number then
      if sorted == [] then [c] else Insert(c, sorted[..|sorted| - 1]) + [sorted[|sorted| - 1]]
    else sorted + [c]
  }

  /** A stable sort by column number. */
  function SortByNumber(cs: seq<Column>): seq<Column> {
    if cs == [] then [] else Insert(cs[|cs| - 1], SortByNumber(cs[..|cs| - 1]))
  }

  predicate Ordered(cs: seq<Column>) {
    forall i, j :: 0 <= i < j < |cs| ==> cs[i].number <= cs[j].number
  }

  /** The columns with one number, in order of appearance. */
  function WithNumber(cs: seq<Column>, number: nat): seq<Column> {
    if cs == [] then []
    else
      var last := cs[|cs| - 1];
      WithNumber(cs[..|cs| - 1], number) + if last.number == number then [last] else []
  }

  /** The column itself when it has the number. */
  function IfNumber(c: Column, number: nat): seq<Column> {
    if c.number == number then [c] else []
  }

  lemma WithNumberSnoc(cs: seq<Column>, c: Column, k: nat)
    ensures WithNumber(cs + [c], k) == WithNumber(cs, k) + IfNumber(c, k)
  {
    assert (cs + [c])[..|cs|] == cs;
  }

  lemma {:induction false} InsertOrders(c: Column, sorted: seq<Column>)
    requires Ordered(sorted)
    ensures Ordered(Insert(c, sorted))
    ensures forall x <- Insert(c, sorted) :: x == c || x in sorted
  {
    if sorted != [] && c.number < sorted[|sorted| - 1].number {
      var init, last := sorted[..|sorted| - 1], sorted[|sorted| - 1];
      InsertOrders(c, init);
      forall x <- Insert(c, init)
        ensures x.number <= last.number
      {
        if x != c {
          var i :| 0 <= i < |init| && init[i] == x;
          assert sorted[i] == x;
        }
      }
    }
  }

  lemma {:induction false} InsertKeeps(c: Column, sorted: seq<Column>, k: nat)
    ensures WithNumber(Insert(c, sorted), k) == WithNumber(sorted, k) + IfNumber(c, k)
  {
    hide WithNumber;
    if sorted == [] {
      WithNumberSnoc([], c, k);
      assert [] + [c] == [c];
    } else if c.number < sorted[|sorted| - 1].number {
      var init, last := sorted[..|sorted| - 1], sorted[|sorted| - 1];
      assert sorted == init + [last];
      InsertKeeps(c, init, k);
      WithNumberSnoc(init, last, k);
      WithNumberSnoc(Insert(c, init), last, k);
    } else {
      WithNumberSnoc(sorted, c, k);
    }
  }

  /** Sorting orders the columns and keeps the order of those with one number. */
  lemma {:induction false} SortKeeps(cs: seq<Column>, k: nat)
    ensures Ordered(SortByNumber(cs)) && WithNumber(SortByNumber(cs), k) == WithNumber(cs, k)
  {
    hide WithNumber, Insert, Ordered, IfNumber;
    if cs == [] {
      NothingOrdered();
    } else {
      var init, last := cs[..|cs| - 1], cs[|cs| - 1];
      SortKeeps(init, k);
      InsertOrders(last, SortByNumber(init));
      InsertKeeps(last, SortByNumber(init), k);
      WithNumberSnoc(init, last, k);
      assert cs == init + [last];
    }
  }

  lemma NothingOrdered()
    ensures Ordered([])
  {}

  lemma {:induction false} WithNumberIn(cs: seq<Column>, k: nat)
    ensures WithNumber(cs, k) != [] <==> exists c :: c in cs && c.number == k
  {
    if cs != [] {
      var init, last := cs[..|cs| - 1], cs[|cs| - 1];
      WithNumberIn(init, k);
      assert cs == init + [last];
    }
  }

  predicate Alike(a: seq<Column>, b: seq<Column>, k: nat) {
    WithNumber(a, k) == WithNumber(b, k)
  }

  lemma LastNumbers(a: seq<Column>, b: seq<Column>)
    requires Ordered(a) && Ordered(b) && a != [] && Alike(a, b, a[|a| - 1].number)
    ensures b != [] && a[|a| - 1].number <= b[|b| - 1].number
  {
    hide WithNumber;
    var x := a[|a| - 1];
    WithNumberIn(a, x.number);
    WithNumberIn(b, x.number);
    assert x in a;
    var c :| c in b && c.number == x.number;
  }

  lemma DropLast(a: seq<Column>, x: Column, b: seq<Column>, y: Column, k: nat)
    requires x.number == y.number && Alike(a + [x], b + [y], k)
    ensures Alike(a, b, k) && (k == x.number ==> x == y)
  {
    WithNumberSnoc(a, x, k);
    WithNumberSnoc(b, y, k);
    hide WithNumber;
    if k == x.number {
      var whole := WithNumber(a, k) + [x];
      assert whole == WithNumber(b, k) + [y];
      assert whole[|whole| - 1] == x && whole[..|whole| - 1] == WithNumber(a, k);
      assert whole[|whole| - 1] == y && whole[..|whole| - 1] == WithNumber(b, k);
    } else {
      assert WithNumber(a, k) + [] == WithNumber(a, k) && WithNumber(b, k) + [] == WithNumber(b, k);
    }
  }

  /** Being ordered and keeping the order of equal numbers leave one result only. */
  lemma {:induction false} SortIsUnique(a: seq<Column>, b: seq<Column>)
    requires Ordered(a) && Ordered(b) && forall k: nat :: Alike(a, b, k)
    ensures a == b
  {
    if a != [] {
      assert Alike(a, b, a[|a| - 1].number);
      LastNumbers(a, b);
      assert Alike(a, b, b[|b| - 1].number);
      hide Alike;
      AlikeBack(a, b, b[|b| - 1].number);
      LastNumbers(b, a);
      var x, y, initA, initB := a[|a| - 1], b[|b| - 1], a[..|a| - 1], b[..|b| - 1];
      assert a == initA + [x] && b == initB + [y];
      forall k: nat
        ensures Alike(initA, initB, k) && (k == x.number ==> x == y)
      {
        assert Alike(a, b, k);
        DropLast(initA, x, initB, y, k);
      }
      assert Alike(initA, initB, x.number);
      SortIsUnique(initA, initB);
    } else if b != [] {
      assert Alike(a, b, b[|b| - 1].number);
      AlikeBack(a, b, b[|b| - 1].number);
      LastNumbers(b, a);
    }
  }

  lemma AlikeBack(a: seq<Column>, b: seq<Column>, k: nat)
    requires Alike(a, b, k)
    ensures Alike(b, a, k)
  {}

  // ---------- round trip ----------

  /** A row of the catalogue before encoding. */
  datatype Entry = Entry(table: Half, number: Half, name: Half, attributes: Half)

  predicate ValidEntry(e: Entry, strings: Strings) {
    e.table < |strings| && e.name < |strings| && e.number != Bias(2) && e.attributes != Bias(2)
  }

  function Raw(e: Entry, k: nat): (raw: Word)
    ensures Fits(2, raw)
  {
    if k == 0 then e.table
    else if k == 1 then EncodeInteger(Some(e.number), 2)
    else if k == 2 then e.name
    else EncodeInteger(Some(e.attributes), 2)
  }

  function RawColumn(es: seq<Entry>, k: nat): (raws: seq<Word>)
    ensures |raws| == |es| && AllFit(2, raws)
    ensures forall i :: 0 <= i < |es| ==> raws[i] == Raw(es[i], k)
  {
    if es == [] then [] else [Raw(es[0], k)] + RawColumn(es[1..], k)
  }

  function EncodeColumns(es: seq<Entry>): seq<Byte> {
    PackAll(2, RawColumn(es, 0)) + PackAll(2, RawColumn(es, 1))
    + PackAll(2, RawColumn(es, 2)) + PackAll(2, RawColumn(es, 3))
  }

  function DefinitionOfEntry(e: Entry, strings: Strings): Definition
    requires ValidEntry(e, strings)
  {
    Definition(strings[e.table], Column(strings[e.name], e.number, e.attributes))
  }

  predicate AllValid(es: seq<Entry>, strings: Strings) {
    forall e <- es :: ValidEntry(e, strings)
  }

  function DefinitionsOf(es: seq<Entry>, strings: Strings): (ds: seq<Definition>)
    requires AllValid(es, strings)
    ensures |ds| == |es|
  {
    if es == [] then []
    else DefinitionsOf(es[..|es| - 1], strings) + [DefinitionOfEntry(es[|es| - 1], strings)]
  }

  lemma EncodedSlices(es: seq<Entry>)
    ensures |EncodeColumns(es)| == 8 * |es|
    ensures var b, n := EncodeColumns(es), 2 * |es|;
            && b[0..n] == PackAll(2, RawColumn(es, 0)) && b[n..2 * n] == PackAll(2, RawColumn(es, 1))
            && b[2 * n..3 * n] == PackAll(2, RawColumn(es, 2)) && b[3 * n..4 * n] == PackAll(2, RawColumn(es, 3))
  {
    hide PackAll, RawColumn;
    FourParts(PackAll(2, RawColumn(es, 0)), PackAll(2, RawColumn(es, 1)), PackAll(2, RawColumn(es, 2)),
              PackAll(2, RawColumn(es, 3)), 2 * |es|);
  }

  lemma FourParts(a: seq<Byte>, b: seq<Byte>, c: seq<Byte>, d: seq<Byte>, n: nat)
    requires |a| == |b| == |c| == |d| == n
    ensures var s := a + b + c + d;
            && |s| == 4 * n && s[0..n] == a && s[n..2 * n] == b && s[2 * n..3 * n] == c && s[3 * n..4 * n] == d
  {
    var s := a + b + c + d;
    assert s[0..n] == a;
    assert s[n..2 * n] == b;
    assert s[2 * n..3 * n] == c;
  }

  /** The four columns of a catalogue, one behind the other. */
  lemma ValuesAre(b: seq<Byte>, rows: nat)
    requires |b| == 8 * rows
    ensures var n := 2 * rows;
            Values(b, rows, 4) == [UnpackAll(2, b[0..n], rows), UnpackAll(2, b[n..2 * n], rows),
                                   UnpackAll(2, b[2 * n..3 * n], rows), UnpackAll(2, b[3 * n..4 * n], rows)]
  {
    hide UnpackAll;
    var n := 2 * rows;
    assert Values(b, rows, 1) == [UnpackAll(2, b[0..n], rows)];
    assert Values(b, rows, 2) == Values(b, rows, 1) + [UnpackAll(2, b[n..2 * n], rows)];
    assert Values(b, rows, 3) == Values(b, rows, 2) + [UnpackAll(2, b[2 * n..3 * n], rows)];
  }

  lemma ValuesOfEncoded(es: seq<Entry>)
    ensures |EncodeColumns(es)| == 8 * |es|
    ensures Values(EncodeColumns(es), |es|, 4) == RawColumns(es)
  {
    hide PackAll, UnpackAll, RawColumn, EncodeColumns, Values;
    EncodedSlices(es);
    ValuesAre(EncodeColumns(es), |es|);
    UnpackPacked(2, RawColumn(es, 0));
    UnpackPacked(2, RawColumn(es, 1));
    UnpackPacked(2, RawColumn(es, 2));
    UnpackPacked(2, RawColumn(es, 3));
  }

  lemma EntryRoundTrip(e: Entry, strings: Strings)
    requires ValidEntry(e, strings)
    ensures DefinitionOf(Raw(e, 0), Raw(e, 1), Raw(e, 2), Raw(e, 3), strings) == Ok(DefinitionOfEntry(e, strings))
  {
    hide EncodeInteger, DecodeInteger;
    IntegerRoundTrip(e.number, 0, 2);
    IntegerRoundTrip(e.attributes, 0, 2);
  }

  function RawColumns(es: seq<Entry>): (values: seq<seq<Word>>)
    ensures FourColumns(values, |es|)
  {
    [RawColumn(es, 0), RawColumn(es, 1), RawColumn(es, 2), RawColumn(es, 3)]
  }

  lemma {:induction false} DefinitionsRoundTrip(es: seq<Entry>, n: nat, strings: Strings)
    requires n <= |es| && AllValid(es, strings) && AllValid(es[..n], strings)
    ensures Definitions(RawColumns(es), |es|, n, strings) == Ok(DefinitionsOf(es[..n], strings))
  {
    if n > 0 {
      hide ValidEntry, Raw, DefinitionOf, DefinitionOfEntry, RawColumn;
      assert es[..n][..n - 1] == es[..n - 1];
      DefinitionsRoundTrip(es, n - 1, strings);
      assert es[n - 1] in es;
      EntryRoundTrip(es[n - 1], strings);
    }
  }

  /** Reading an encoded catalogue yields, for each table that has a column, its
      columns ordered by number, those with one number in catalogue order. */
  lemma CatalogueRoundTrip(es: seq<Entry>, strings: Strings, table: Name, k: nat)
    requires AllValid(es, strings)
    ensures var ds, r := DefinitionsOf(es, strings), Columns(EncodeColumns(es), strings);
            && r.Ok?
            && (table in r.value <==> exists d :: d in ds && d.table == table)
            && (table in r.value ==>
                  Ordered(r.value[table]) && Alike(r.value[table], ColumnsOf(ds, table), k))
  {
    hide AllValid, EncodeColumns, RawColumn, Definitions, DefinitionsOf, Values, Group;
    hide ColumnsOf, WithNumber, Ordered, SortByNumber;
    ValuesOfEncoded(es);
    assert es[..|es|] == es;
    DefinitionsRoundTrip(es, |es|, strings);
    var ds := DefinitionsOf(es, strings);
    GroupHolds(ds, table);
    SortKeeps(ColumnsOf(ds, table), k);
  }

  /** A schema stored in column order is read back as that schema, whatever other
      tables the catalogue holds and however their rows are interleaved. */
  lemma SchemaRoundTrip(es: seq<Entry>, strings: Strings, table: Name)
    requires AllValid(es, strings)
    requires var cs := ColumnsOf(DefinitionsOf(es, strings), table); cs != [] && Ordered(cs)
    ensures var r := Columns(EncodeColumns(es), strings);
            r.Ok? && table in r.value && r.value[table] == ColumnsOf(DefinitionsOf(es, strings), table)
  {
    hide Columns, EncodeColumns, AllValid, DefinitionsOf, Ordered, Alike;
    var ds, r := DefinitionsOf(es, strings), Columns(EncodeColumns(es), strings);
    HasDefinition(ds, table);
    forall k: nat
      ensures r.Ok? && table in r.value && Ordered(r.value[table])
      ensures Alike(r.value[table], ColumnsOf(ds, table), k)
    {
      CatalogueRoundTrip(es, strings, table, k);
    }
    CatalogueRoundTrip(es, strings, table, 0);
    SortIsUnique(r.value[table], ColumnsOf(ds, table));
  }

  lemma HasDefinition(ds: seq<Definition>, table: Name)
    requires ColumnsOf(ds, table) != []
    ensures exists d :: d in ds && d.table == table
  {
    GroupHolds(ds, table);
  }

  // ---------- what is accepted ----------

  /** A row of the catalogue that can be read: two names in the pool, and neither of
      its numbers null. */
  predicate RowReads(values: seq<seq<Word>>, r: nat, strings: Strings)
    requires |values| == 4 && forall v <- values :: r < |v|
  {
    values[0][r] < |strings| && values[2][r] < |strings| && values[1][r] != 0 && values[3][r] != 0
  }

  /** A row that fails for a null in its numbers, before its column name is looked up. */
  predicate RowNull(values: seq<seq<Word>>, r: nat, strings: Strings)
    requires |values| == 4 && forall v <- values :: r < |v|
  {
    values[0][r] < |strings| && (values[1][r] == 0 || values[3][r] == 0)
  }

  lemma RowMeans(values: seq<seq<Word>>, rows: nat, r: nat, strings: Strings)
    requires FourColumns(values, rows) && r < rows
    ensures Fits(2, values[1][r]) && Fits(2, values[3][r])
    ensures var d := DefinitionOf(values[0][r], values[1][r], values[2][r], values[3][r], strings);
            && (d.Ok? <==> RowReads(values, r, strings))
            && (d == Err(NullValue) <==> RowNull(values, r, strings))
            && (d.Err? ==> d.error == NullValue || d.error == DanglingReference)
            && (d.Ok? ==> d.value.table == strings[values[0][r]] && d.value.column.name == strings[values[2][r]])
  {
    assert values[1][r] in values[1] && values[3][r] in values[3];
  }

  /** The first n rows can be read. */
  predicate AllRead(values: seq<seq<Word>>, n: nat, strings: Strings)
    requires |values| == 4 && forall v <- values :: n <= |v|
  {
    forall r | 0 <= r < n :: RowReads(values, r, strings)
  }

  /** The first of n rows that cannot be read has a null number. */
  predicate NullFirst(values: seq<seq<Word>>, n: nat, strings: Strings)
    requires |values| == 4 && forall v <- values :: n <= |v|
  {
    exists r | 0 <= r < n :: RowNull(values, r, strings) && AllRead(values, r, strings)
  }

  lemma {:induction false} DefinitionsMean(values: seq<seq<Word>>, rows: nat, n: nat, strings: Strings)
    requires FourColumns(values, rows) && n <= rows
    ensures var ds := Definitions(values, rows, n, strings);
            && (ds.Ok? <==> AllRead(values, n, strings))
            && (ds == Err(NullValue) <==> NullFirst(values, n, strings))
            && (ds.Err? ==> ds.error == NullValue || ds.error == DanglingReference)
  {
    hide DefinitionOf, RowReads, RowNull, FourColumns;
    if n > 0 {
      DefinitionsMean(values, rows, n - 1, strings);
      RowMeans(values, rows, n - 1, strings);
      Unread(values, rows, n - 1, strings);
    }
  }

  lemma Unread(values: seq<seq<Word>>, rows: nat, r: nat, strings: Strings)
    requires FourColumns(values, rows) && r < rows
    ensures !(RowNull(values, r, strings) && RowReads(values, r, strings))
  {}

  /** Which catalogues are read, and why others are not: the first row that cannot be
      read decides. */
  lemma CatalogueMeans(b: seq<Byte>, strings: Strings)
    ensures Columns(b, strings) == Err(BadSize) <==> |b| % 8 != 0
    ensures |b| % 8 == 0 ==>
              var rows, values := |b| / 8, Values(b, |b| / 8, 4);
              && (Columns(b, strings).Ok? <==> AllRead(values, rows, strings))
              && (Columns(b, strings) == Err(NullValue) <==> NullFirst(values, rows, strings))
              && (Columns(b, strings).Err? ==> Columns(b, strings).error != BadWidth)
  {
    hide Definitions, Values, AllRead, NullFirst, Sorted, Group;
    if |b| % 8 == 0 {
      DefinitionsMean(Values(b, |b| / 8, 4), |b| / 8, |b| / 8, strings);
    }
  }
}
