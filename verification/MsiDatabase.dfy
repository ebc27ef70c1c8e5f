/** Reading a database from its streams: strings, then the catalogue, then a table. */
module MsiDatabase {
  import opened Common
  import opened Bytes
  import StringPool
  import opened MsiTables
  import opened MsiColumns

  /** Everything a database stores about one table comes back through the three
      readers in turn: the strings from the pool, the schema from the catalogue read
      with those strings, and the rows read with that schema and those strings. */
  lemma DatabaseRoundTrip(
    codepage: Half, flags: Half, pool: seq<StringPool.Entry>, es: seq<Entry>, table: Name, rows: seq<Row>)
    requires flags < 0x8000 && StringPool.ValidEntries(pool)
    requires var strings := [[]] + StringPool.Texts(pool);
             AllValid(es, strings) &&
             var cs := ColumnsOf(DefinitionsOf(es, strings), table);
             cs != [] && Ordered(cs) && DistinctNames(cs) && RowsOf(cs, rows) && TableStorable(cs, rows, strings)
    ensures var strings := [[]] + StringPool.Texts(pool);
            var cs := ColumnsOf(DefinitionsOf(es, strings), table);
            var loaded := StringPool.Load(LE16(codepage) + LE16(flags) + StringPool.PoolBytes(pool),
                                          StringPool.Concat(StringPool.Texts(pool)));
            && loaded == Ok(strings)
            && var catalogue := Columns(EncodeColumns(es), loaded.value);
               && catalogue.Ok? && table in catalogue.value && catalogue.value[table] == cs
               && Table(EncodeTable(cs, rows, strings), catalogue.value[table], loaded.value) == Ok(rows)
  {
    hide StringPool.Load, Columns, Table, EncodeTable, EncodeColumns, TableStorable, AllValid, ColumnsOf, DefinitionsOf;
    var strings := [[]] + StringPool.Texts(pool);
    StringPool.PoolRoundTrip(codepage, flags, pool);
    SchemaRoundTrip(es, strings, table);
    TableRoundTrip(ColumnsOf(DefinitionsOf(es, strings), table), rows, strings);
  }
}
