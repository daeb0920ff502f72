/** Committed files and the catalog derived from them. */
module Store {
  import opened MapSums

  /** `hour` is the event hour; `node` the writer that owns the file. */
  datatype Key = Key(tenant: string, index: string, hour: nat, bucket: string, node: string)

  /** Where a file is: its partition, and a name no other file of the store has had. */
  datatype Path = Path(key: Key, name: nat)

  datatype Row = Row(ts: int, severity: nat, body: string)

  /** A file appears whole. Its footer holds the span of its event times. */
  datatype File = File(rows: seq<Row>, bytes: nat, written: nat, minTs: int, maxTs: int)

  /** The catalog row of a file. */
  datatype Stats = Stats(rows: nat, bytes: nat, minTs: int, maxTs: int)

  datatype State = State(disk: map<Path, File>, catalog: map<Path, Stats>)

  function StatsOf(f: File): Stats { Stats(|f.rows|, f.bytes, f.minTs, f.maxTs) }

  ghost function RowsByPath(disk: map<Path, File>): map<Path, seq<Row>> {
    map p | p in disk :: disk[p].rows
  }

  /** Every row on disk, as often as it is there. */
  ghost function Rows(disk: map<Path, File>): multiset<Row> { Pool(RowsByPath(disk)) }

  ghost function CountsByPath(catalog: map<Path, Stats>): map<Path, nat> {
    map p | p in catalog :: catalog[p].rows
  }

  /** The catalog's row total. */
  ghost function Counted(catalog: map<Path, Stats>): nat { Sum(CountsByPath(catalog)) }

  lemma AddFile(disk: map<Path, File>, p: Path, f: File)
    requires p !in disk
    ensures Rows(disk[p := f]) == Rows(disk) + multiset(f.rows)
  {
    PoolWith(RowsByPath(disk), p, f.rows);
    assert RowsByPath(disk[p := f]) == RowsByPath(disk)[p := f.rows];
  }

  lemma RemoveFile(disk: map<Path, File>, p: Path)
    requires p in disk
    ensures Rows(disk) == Rows(disk - {p}) + multiset(disk[p].rows)
  {
    PoolWithout(RowsByPath(disk), p);
    assert RowsByPath(disk - {p}) == RowsByPath(disk) - {p};
  }

  lemma AddCount(catalog: map<Path, Stats>, p: Path, s: Stats)
    requires p !in catalog
    ensures Counted(catalog[p := s]) == Counted(catalog) + s.rows
  {
    SumWith(CountsByPath(catalog), p, s.rows);
    assert CountsByPath(catalog[p := s]) == CountsByPath(catalog)[p := s.rows];
  }

  lemma RemoveCount(catalog: map<Path, Stats>, p: Path)
    requires p in catalog
    ensures Counted(catalog) == Counted(catalog - {p}) + catalog[p].rows
  {
    SumWithout(CountsByPath(catalog), p);
    assert CountsByPath(catalog - {p}) == CountsByPath(catalog) - {p};
  }
}
