/**
 * The data file (IndexedDisk) as an offset-addressed store.
 *
 * A write of a serialized record of `len` bytes at offset `pos` occupies the
 * byte range [pos, pos + len); it destroys every record it overlaps and
 * extends the file when it ends past the current length. A read at `pos`
 * yields the record whose write started there, if it is still intact; any
 * other read fails as the IOException of readObject does.
 */
module IndexedDisk {
  import opened Optional
  import opened CacheKeys

  /** A record written at some offset, with the number of bytes it occupies. */
  datatype Stored = Stored(record: Record, len: nat)

  datatype DataFile = DataFile(records: map<nat, Stored>, length: nat)

  /** A new or reset file. */
  const EmptyFile: DataFile := DataFile(map[], 0)

  predicate Overlaps(p: nat, lp: nat, q: nat, lq: nat)
  {
    p < q + lq && q < p + lp
  }

  /** write(data, pos). */
  function Write(f: DataFile, pos: nat, r: Record, len: nat): DataFile
  {
    var kept := map p | p in f.records && !Overlaps(p, f.records[p].len, pos, len) :: f.records[p];
    DataFile(kept[pos := Stored(r, len)], if pos + len > f.length then pos + len else f.length)
  }

  /** readObject(pos): None is the IOException of a read that finds no intact record. */
  function ReadObject(f: DataFile, pos: nat): Option<Record>
  {
    if pos in f.records then Some(f.records[pos].record) else None
  }

  /** A write leaves intact every record it does not overlap, and what it wrote reads back. */
  lemma WriteFrame(f: DataFile, pos: nat, r: Record, len: nat, q: nat)
    requires q in f.records && !Overlaps(q, f.records[q].len, pos, len)
    ensures q != pos ==> q in Write(f, pos, r, len).records && Write(f, pos, r, len).records[q] == f.records[q]
    ensures ReadObject(Write(f, pos, r, len), pos) == Some(r)
    ensures Write(f, pos, r, len).length >= f.length
  {
  }
}
