/** One party's preloaded material: rows of residues loaded block by block, sealed, then claimed one at a time. */
module PreloadStore {
  import opened Options
  import opened Framing
  import opened ResidueCodec

  /** What both sides agreed on: number of rows, rows per block, residues per row, modulus. */
  datatype Manifest = Manifest(total: nat, blockSteps: nat, rowValues: nat, modulus: nat) {
    predicate Valid() {
      total >= 1 && blockSteps >= 1 && rowValues >= 1 && Fits(rowValues, modulus)
    }

    function Row(): nat {
      rowValues * Width(modulus)
    }

    /** The size of the next block: full, or what is left. */
    function NextBlock(loaded: nat): nat
      requires loaded <= total
    {
      if blockSteps < total - loaded then blockSteps else total - loaded
    }
  }

  // ----- rows inside a flat buffer -----

  lemma {:induction false} RowBounds(k: nat, n: nat, row: nat)
    requires k < n
    ensures 0 <= k * row <= k * row + row == (k + 1) * row <= n * row
  {
    Monotone(k + 1, n, row);
  }

  function RowsOf(values: seq<Byte>, row: nat, count: nat): (rows: seq<seq<Byte>>)
    requires |values| == count * row
    ensures |rows| == count
  {
    seq(count, k requires 0 <= k < count => RowAt(values, row, count, k))
  }

  function RowAt(values: seq<Byte>, row: nat, count: nat, k: nat): (r: seq<Byte>)
    requires |values| == count * row && k < count
    ensures |r| == row
  {
    RowBounds(k, count, row);
    values[k * row..k * row + row]
  }

  /** Residue j of row k is residue k * rowValues + j of the block. */
  lemma {:induction false} ResidueIndex(k: nat, j: nat, rowValues: nat, width: nat)
    requires j < rowValues
    ensures k * (rowValues * width) + j * width == (k * rowValues + j) * width
    ensures 0 <= j * width <= j * width + width == (j + 1) * width <= rowValues * width
  {
    RowBounds(j, rowValues, width);
  }

  lemma {:induction false} DecodedAt(data: seq<Byte>, width: nat, count: nat, j: nat)
    requires |data| == count * width && j < count
    ensures 0 <= j * width <= j * width + width <= |data|
    ensures Decoded(data, width, count)[j] == BigEndian(data[j * width..j * width + width])
  {
    RowBounds(j, count, width);
    DecodedStep(data, width, j, count);
    DecodedPrefix(data, width, j + 1, count);
    hide Decoded;
    assert Decoded(data, width, count)[..j + 1][j] == Decoded(data, width, count)[j];
  }

  lemma {:induction false} SliceOfSlice(s: seq<Byte>, a: nat, n: nat, b: nat, c: nat)
    requires a + n <= |s| && b + c <= n
    ensures s[a..a + n][b..b + c] == s[a + b..a + b + c]
  {
    var t := s[a..a + n];
    var left, right := t[b..b + c], s[a + b..a + b + c];
    forall i | 0 <= i < c
      ensures left[i] == right[i]
    {
      assert t[b + i] == s[a + (b + i)];
    }
  }

  lemma {:induction false} RowResidue(values: seq<Byte>, rowValues: nat, width: nat, count: nat, k: nat, j: nat)
    requires |values| == count * (rowValues * width) == (count * rowValues) * width && k < count && j < rowValues
    ensures k * rowValues + j < count * rowValues
    ensures Decoded(RowAt(values, rowValues * width, count, k), width, rowValues)[j]
         == Decoded(values, width, count * rowValues)[k * rowValues + j]
  {
    hide Decoded, BigEndian;
    var row, i := RowAt(values, rowValues * width, count, k), k * rowValues + j;
    RowBounds(k, count, rowValues);
    RowBounds(k, count, rowValues * width);
    ResidueIndex(k, j, rowValues, width);
    DecodedAt(row, width, rowValues, j);
    DecodedAt(values, width, count * rowValues, i);
    SameResidue(values, row, k * (rowValues * width), rowValues * width, j * width, i * width, width);
  }

  lemma {:induction false} SameResidue(values: seq<Byte>, row: seq<Byte>, from: nat, size: nat, at: nat, whole: nat,
      width: nat)
    requires from + size <= |values| && row == values[from..from + size] && at + width <= size && whole == from + at
    ensures BigEndian(row[at..at + width]) == BigEndian(values[whole..whole + width])
  {
    hide BigEndian;
    SliceOfSlice(values, from, size, at, width);
  }

  /** A block all of whose residues are canonical consists of rows the decoder accepts. */
  lemma {:induction false} RowsAccepted(values: seq<Byte>, m: Manifest, count: nat, k: nat)
    requires m.Valid() && |values| == count * m.Row() && k < count
    requires |values| == (count * m.rowValues) * Width(m.modulus)
    requires Canonical(Decoded(values, Width(m.modulus), count * m.rowValues), m.modulus)
    ensures Accepts(RowAt(values, m.Row(), count, k), m.rowValues, m.modulus)
  {
    hide Decoded, Width, BigEndian, RowAt, Fits;
    var row := RowAt(values, m.Row(), count, k);
    forall j | 0 <= j < m.rowValues
      ensures Decoded(row, Width(m.modulus), m.rowValues)[j] < m.modulus
    {
      RowResidue(values, m.rowValues, Width(m.modulus), count, k, j);
    }
  }

  function Zeros(n: nat): (z: seq<Byte>)
    ensures |z| == n && forall i :: 0 <= i < n ==> z[i] == 0
  {
    seq(n, _ => 0)
  }

  /** Slice assignment: the bytes of `values` at `start`, everything else as before. */
  function Splice(before: seq<Byte>, start: nat, values: seq<Byte>): (after: seq<Byte>)
    requires start + |values| <= |before|
    ensures |after| == |before|
  {
    before[..start] + values + before[start + |values|..]
  }

  lemma {:induction false} SpliceOutside(before: seq<Byte>, start: nat, values: seq<Byte>, at: nat, n: nat)
    requires start + |values| <= |before| && at + n <= |before| && (at + n <= start || start + |values| <= at)
    ensures Splice(before, start, values)[at..at + n] == before[at..at + n]
  {
  }

  lemma {:induction false} SpliceInside(before: seq<Byte>, start: nat, values: seq<Byte>, at: nat, n: nat)
    requires start + |values| <= |before| && at + n <= |values|
    ensures Splice(before, start, values)[start + at..start + at + n] == values[at..at + n]
  {
    var after := Splice(before, start, values);
    var left, right := after[start + at..start + at + n], values[at..at + n];
    forall i | 0 <= i < n
      ensures left[i] == right[i]
    {
      assert after[start + (at + i)] == values[at + i];
    }
  }

  /** Writing whole rows into a buffer replaces exactly those rows. */
  lemma {:induction false} SpliceRows(before: seq<Byte>, values: seq<Byte>, row: nat, total: nat, from: nat, count: nat,
      k: nat)
    requires |before| == total * row && |values| == count * row && from + count <= total && k < total
    ensures from * row + |values| <= |before|
    ensures RowAt(Splice(before, from * row, values), row, total, k)
         == if from <= k < from + count then RowAt(values, row, count, k - from) else RowAt(before, row, total, k)
  {
    SumTimes(from, count, row);
    Monotone(from + count, total, row);
    RowBounds(k, total, row);
    hide Splice;
    if from <= k < from + count {
      SumTimes(from, k - from, row);
      RowBounds(k - from, count, row);
      SpliceInside(before, from * row, values, (k - from) * row, row);
    } else if k < from {
      Monotone(k + 1, from, row);
      SpliceOutside(before, from * row, values, k * row, row);
    } else {
      Monotone(from + count, k, row);
      SpliceOutside(before, from * row, values, k * row, row);
    }
  }

  /** Claimed rows are zero, the other loaded rows are what was sent. */
  ghost predicate Holds(data: seq<Byte>, content: seq<seq<Byte>>, next: nat, row: nat, total: nat) {
    && |data| == total * row && |content| <= total
    && forall k :: 0 <= k < |content| ==>
         |content[k]| == row && RowAt(data, row, total, k) == if k < next then Zeros(row) else content[k]
  }

  lemma {:induction false} LoadKeeps(data: seq<Byte>, content: seq<seq<Byte>>, row: nat, total: nat,
      values: seq<Byte>, count: nat)
    requires Holds(data, content, 0, row, total) && |values| == count * row && |content| + count <= total
    ensures |content| * row + |values| <= |data|
    ensures Holds(Splice(data, |content| * row, values), content + RowsOf(values, row, count), 0, row, total)
  {
    hide RowAt, Splice;
    SumTimes(|content|, count, row);
    Monotone(|content| + count, total, row);
    var after, more := Splice(data, |content| * row, values), content + RowsOf(values, row, count);
    forall k | 0 <= k < |more|
      ensures |more[k]| == row && RowAt(after, row, total, k) == more[k]
    {
      SpliceRows(data, values, row, total, |content|, count, k);
    }
  }

  lemma {:induction false} EraseKeeps(data: seq<Byte>, content: seq<seq<Byte>>, next: nat, row: nat, total: nat)
    requires Holds(data, content, next, row, total) && next < |content|
    ensures next * row + row <= |data|
    ensures Holds(Splice(data, next * row, Zeros(row)), content, next + 1, row, total)
  {
    hide RowAt, Splice;
    RowBounds(next, total, row);
    var zeros := Zeros(row);
    assert |zeros| == 1 * row;
    OneRow(zeros, row);
    forall k | 0 <= k < |content|
      ensures RowAt(Splice(data, next * row, zeros), row, total, k)
           == if k < next + 1 then Zeros(row) else content[k]
    {
      SpliceRows(data, zeros, row, total, next, 1, k);
    }
  }

  lemma {:induction false} OneRow(values: seq<Byte>, row: nat)
    requires |values| == 1 * row
    ensures RowAt(values, row, 1, 0) == values
  {
  }

  // ----- the store -----

  class PreloadStore {
    const m: Manifest
    var data: array<Byte>
    var loaded: nat
    var nextSlot: nat
    var committed: nat
    var armed: bool
    var closed: bool
    var active: Option<nat>
    ghost var content: seq<seq<Byte>>

    ghost predicate Counts()
      reads `loaded, `nextSlot, `committed, `armed, `closed, `active
    {
      && m.Valid() && committed <= nextSlot <= committed + 1 && nextSlot <= loaded <= m.total
      && (armed ==> loaded == m.total) && (!armed ==> nextSlot == 0)
      && (!closed ==> active == if nextSlot == committed + 1 then Some(committed) else None)
      && (closed ==> active.None?)
    }

    /** The buffer until the close, which drops it. */
    ghost predicate Buffer()
      reads `data, `loaded, `nextSlot, `closed, `content, data
    {
      && |content| == loaded <= m.total
      && if closed then data.Length == 0 else Holds(data[..], content, nextSlot, m.Row(), m.total)
    }

    ghost predicate Valid()
      reads this, data
    {
      && Counts() && Buffer()
      && forall k :: 0 <= k < |content| ==> Accepts(content[k], m.rowValues, m.modulus)
    }

    constructor (m: Manifest)
      requires m.total >= 1 && m.blockSteps >= 1 && m.rowValues >= 1 && Fits(m.rowValues, m.modulus)
      ensures Valid() && fresh(data) && this.m == m
      ensures loaded == nextSlot == committed == 0 && !armed && !closed && content == []
    {
      this.m := m;
      data := new Byte[m.total * m.Row()](_ => 0);
      loaded, nextSlot, committed, armed, closed, active, content := 0, 0, 0, false, false, None, [];
    }

    /** Takes the next block: its announced range, its exact length, every residue canonical. */
    method Load(first: nat, count: nat, receiptOk: bool, values: seq<Byte>) returns (ok: bool)
      requires Valid()
      modifies this, data
      ensures Valid() && data == old(data) && unchanged(`nextSlot) && unchanged(`committed)
      ensures unchanged(`armed) && unchanged(`closed)
      ensures !ok ==> unchanged(this) && unchanged(data)
      ensures ok ==> first == old(loaded) && count > 0 && |values| == count * m.Row() && loaded == old(loaded) + count
      ensures ok ==> content == old(content) + RowsOf(values, m.Row(), count)
      ensures ok <==>
        && !closed && !armed && receiptOk && first == old(loaded)
        && 0 < count <= m.blockSteps && first + count <= m.total
        && (count == m.blockSteps || first + count == m.total)
        && |values| == count * m.Row() && |values| == (count * m.rowValues) * Width(m.modulus)
        && Canonical(Decoded(values, Width(m.modulus), count * m.rowValues), m.modulus)
    {
      hide Width, Decoded, Accepts, Fits;
      var expected := m.NextBlock(loaded);
      if closed || armed || expected == 0 || !receiptOk || first != loaded || count != expected {
        return false;
      }
      if |values| != count * m.Row() {
        return false;
      }
      Regroup(count, m.rowValues, Width(m.modulus));
      var decoded := DecodeBlocks(values, Width(m.modulus), count * m.rowValues, m.modulus);
      if decoded.None? {
        return false;
      }
      forall k | 0 <= k < count
        ensures Accepts(RowAt(values, m.Row(), count, k), m.rowValues, m.modulus)
      {
        RowsAccepted(values, m, count, k);
      }
      Copy(values, count);
      return true;
    }

    /** Slice assignment into the buffer, byte by byte. */
    method Write(start: nat, values: seq<Byte>)
      requires start + |values| <= data.Length
      modifies data
      ensures data[..] == Splice(old(data[..]), start, values)
    {
      ghost var before := data[..];
      for i := 0 to |values|
        invariant data[..] == before[..start] + values[..i] + before[start + i..]
      {
        data[start + i] := values[i];
      }
      assert values[..|values|] == values;
    }

    /** Writes the rows of a checked block after those already loaded. */
    method Copy(values: seq<Byte>, count: nat)
      requires m.Valid() && Buffer() && !closed && nextSlot == 0 && count <= m.total - loaded
      requires |values| == count * m.Row()
      modifies `loaded, `content, data
      ensures Buffer() && loaded == old(loaded) + count
      ensures content == old(content) + RowsOf(values, m.Row(), count)
    {
      hide RowAt, Width, Splice, Holds;
      LoadKeeps(data[..], content, m.Row(), m.total, values, count);
      Write(loaded * m.Row(), values);
      content := content + RowsOf(values, m.Row(), count);
      loaded := loaded + count;
    }

    method Seal(count: nat, digestOk: bool) returns (ok: bool)
      requires Valid()
      modifies `armed
      ensures Valid()
      ensures ok <==> !closed && !old(armed) && loaded == m.total && digestOk && count == loaded
      ensures armed == (old(armed) || ok)
    {
      if closed || armed || loaded != m.total || !digestOk || count != loaded {
        return false;
      }
      armed := true;
      return true;
    }

    /** Hands out the next row once, and leaves zeros behind. */
    method Claim(slot: nat, inputOk: bool) returns (row: Option<seq<nat>>)
      requires Valid()
      modifies this, data
      ensures Valid() && data == old(data) && unchanged(`content) && unchanged(`committed) && unchanged(`loaded)
      ensures unchanged(`armed) && unchanged(`closed)
      ensures row.Some? <==>
        !closed && armed && old(active).None? && inputOk && slot == old(nextSlot) && old(nextSlot) < m.total
      ensures row.None? ==> unchanged(this) && unchanged(data)
      ensures row.Some? ==>
        && slot < |content| && |content[slot]| == m.rowValues * Width(m.modulus)
        && row.value == Decoded(content[slot], Width(m.modulus), m.rowValues)
        && nextSlot == old(nextSlot) + 1 && active == Some(slot)
    {
      hide Width, Decoded, Fits;
      if closed || !armed || active.Some? || !inputOk || slot != nextSlot || nextSlot >= m.total {
        return None;
      }
      assert Accepts(content[slot], m.rowValues, m.modulus);
      RowBounds(slot, m.total, m.Row());
      var start := slot * m.Row();
      var bytes := data[start..start + m.Row()];
      assert bytes == RowAt(data[..], m.Row(), m.total, slot);
      Erase(slot);
      active := Some(slot);
      row := DecodeResidues(bytes, m.rowValues, m.modulus);
    }

    /** Overwrites the claimed row with zeros. */
    method Erase(slot: nat)
      requires m.Valid() && Buffer() && !closed && slot == nextSlot < loaded
      modifies `nextSlot, data
      ensures Buffer() && nextSlot == slot + 1
    {
      hide RowAt, Width, Splice, Holds;
      EraseKeeps(data[..], content, slot, m.Row(), m.total);
      Write(slot * m.Row(), Zeros(m.Row()));
      nextSlot := slot + 1;
    }

    method Commit(slot: nat) returns (ok: bool)
      requires Valid()
      modifies `committed, `active
      ensures Valid()
      ensures ok <==> !closed && old(active) == Some(slot)
      ensures ok ==> committed == old(committed) + 1 == nextSlot && active.None?
      ensures !ok ==> unchanged(`committed) && unchanged(`active)
    {
      if closed || active != Some(slot) || committed + 1 != nextSlot {
        return false;
      }
      committed := committed + 1;
      active := None;
      return true;
    }

    method Close()
      requires Valid()
      modifies this
      ensures Valid() && closed && unchanged(`content) && unchanged(`nextSlot) && unchanged(`committed)
    {
      closed := true;
      active := None;
      data := new Byte[0];
    }
  }

  // ----- the round trip -----

  /** The rows a dealer exports: each as many canonical residues as the manifest says. */
  ghost predicate Exported(rows: seq<seq<nat>>, m: Manifest) {
    forall k :: 0 <= k < |rows| ==> |rows[k]| == m.rowValues && ResidueCodec.Canonical(rows[k], m.modulus)
  }

  function Join(rows: seq<seq<nat>>, width: nat): seq<Byte> {
    if rows == [] then [] else Join(rows[..|rows| - 1], width) + Encoded(rows[|rows| - 1], width)
  }

  function Concatenated(rows: seq<seq<nat>>): seq<nat> {
    if rows == [] then [] else Concatenated(rows[..|rows| - 1]) + rows[|rows| - 1]
  }

  lemma {:induction false} EncodedConcat(a: seq<nat>, b: seq<nat>, width: nat)
    ensures Encoded(a + b, width) == Encoded(a, width) + Encoded(b, width)
  {
    if b == [] {
      assert a + b == a;
    } else {
      var init, last := b[..|b| - 1], b[|b| - 1];
      EncodedConcat(a, init, width);
      assert (a + b)[..|a + b| - 1] == a + init;
      EncodedLast(b, width);
      EncodedLast(a + b, width);
      hide Encoded, ToBytes;
      ConcatAssociates(Encoded(a, width), Encoded(init, width), ToBytes(last, width));
    }
  }

  lemma {:induction false} EncodedLast(s: seq<nat>, width: nat)
    requires s != []
    ensures Encoded(s, width) == Encoded(s[..|s| - 1], width) + ToBytes(s[|s| - 1], width)
  {
  }

  /** A block of exported rows is the encoding of all its residues, and its rows are the encoded rows. */
  lemma {:induction false} JoinMeaning(rows: seq<seq<nat>>, m: Manifest)
    requires m.Valid() && Exported(rows, m)
    ensures Join(rows, Width(m.modulus)) == Encoded(Concatenated(rows), Width(m.modulus))
    ensures |Concatenated(rows)| == |rows| * m.rowValues && ResidueCodec.Canonical(Concatenated(rows), m.modulus)
    ensures |Join(rows, Width(m.modulus))| == |rows| * m.Row()
  {
    hide Width, Fits;
    var width := Width(m.modulus);
    if rows != [] {
      var init, last := rows[..|rows| - 1], rows[|rows| - 1];
      JoinMeaning(init, m);
      EncodedConcat(Concatenated(init), last, width);
      EncodedLength(last, width);
      SumTimes(|init|, 1, m.rowValues);
      SumTimes(|init|, 1, m.Row());
    }
  }

  lemma {:induction false} JoinedRow(rows: seq<seq<nat>>, m: Manifest, k: nat)
    requires m.Valid() && Exported(rows, m) && k < |rows|
    ensures |Join(rows, Width(m.modulus))| == |rows| * m.Row()
    ensures RowAt(Join(rows, Width(m.modulus)), m.Row(), |rows|, k) == Encoded(rows[k], Width(m.modulus))
  {
    JoinMeaning(rows, m);
    hide Width, Fits;
    var width, init, last := Width(m.modulus), rows[..|rows| - 1], rows[|rows| - 1];
    JoinMeaning(init, m);
    EncodedLength(last, width);
    RowBounds(k, |rows|, m.Row());
    hide Encoded;
    if k < |rows| - 1 {
      JoinedRow(init, m, k);
      RowBounds(k, |init|, m.Row());
      Prefixed(Join(init, width), Encoded(last, width), k * m.Row(), m.Row());
    } else {
      Suffixed(Join(init, width), Encoded(last, width), k * m.Row());
    }
  }

  lemma {:induction false} Prefixed(a: seq<Byte>, b: seq<Byte>, at: nat, n: nat)
    requires at + n <= |a|
    ensures (a + b)[at..at + n] == a[at..at + n]
  {
  }

  lemma {:induction false} Suffixed(a: seq<Byte>, b: seq<Byte>, at: nat)
    requires at == |a|
    ensures (a + b)[at..at + |b|] == b
  {
  }

  /** An exported block is accepted, row by row the encodings of its rows. */
  lemma {:induction false} BlockIsCanonical(rows: seq<seq<nat>>, m: Manifest)
    requires m.Valid() && Exported(rows, m)
    ensures var width := Width(m.modulus);
      && |Join(rows, width)| == |rows| * m.Row() == (|rows| * m.rowValues) * width
      && ResidueCodec.Canonical(Decoded(Join(rows, width), width, |rows| * m.rowValues), m.modulus)
  {
    WidthFits(m.modulus);
    JoinMeaning(rows, m);
    hide Width, Fits;
    Regroup(|rows|, m.rowValues, Width(m.modulus));
    DecodedEncoded(Concatenated(rows), Width(m.modulus));
  }

  /** The store holds the encodings of the first rows. */
  ghost predicate HasRows(store: PreloadStore, rows: seq<seq<nat>>)
    reads store, store.data
  {
    && store.Valid() && store.loaded <= |rows| == store.m.total
    && forall k :: 0 <= k < store.loaded ==> store.content[k] == Encoded(rows[k], Width(store.m.modulus))
  }

  method LoadBlock(store: PreloadStore, ghost rows: seq<seq<nat>>, block: seq<seq<nat>>)
    requires HasRows(store, rows) && Exported(rows, store.m) && !store.closed && !store.armed
    requires store.loaded < store.m.total
    requires |block| == store.m.NextBlock(store.loaded)
    requires block == rows[store.loaded..store.loaded + |block|]
    modifies store, store.data
    ensures HasRows(store, rows) && store.loaded == old(store.loaded) + |block| && store.data == old(store.data)
    ensures !store.closed && !store.armed && store.nextSlot == old(store.nextSlot)
    ensures store.committed == old(store.committed)
  {
    hide Width, Decoded, Encoded, Join, Fits, RowsOf, Holds, Accepts, ResidueCodec.Canonical;
    ghost var m, before := store.m, store.loaded;
    assert Exported(block, m);
    hide Exported;
    BlockRows(block, m);
    var values := Join(block, Width(store.m.modulus));
    var ok := store.Load(store.loaded, |block|, true, values);
    forall k | before <= k < store.loaded
      ensures store.content[k] == Encoded(rows[k], Width(m.modulus))
    {
      assert rows[k] == block[k - before];
    }
  }

  /** What the store needs to know of an exported block. */
  lemma {:induction false} BlockRows(block: seq<seq<nat>>, m: Manifest)
    requires m.Valid() && Exported(block, m)
    ensures var width, values := Width(m.modulus), Join(block, Width(m.modulus));
      && |values| == |block| * m.Row() == (|block| * m.rowValues) * width
      && ResidueCodec.Canonical(Decoded(values, width, |block| * m.rowValues), m.modulus)
      && forall k :: 0 <= k < |block| ==> RowsOf(values, m.Row(), |block|)[k] == Encoded(block[k], width)
  {
    hide Width, Decoded, Encoded, Join, Fits;
    BlockIsCanonical(block, m);
    forall k | 0 <= k < |block|
      ensures RowsOf(Join(block, Width(m.modulus)), m.Row(), |block|)[k] == Encoded(block[k], Width(m.modulus))
    {
      JoinedRow(block, m, k);
    }
  }

  /** Export, load in blocks of any size, seal, claim and commit every step: what comes back is what was sent. */
  method RoundTrip(rows: seq<seq<nat>>, m: Manifest) returns (claimed: seq<seq<nat>>)
    requires m.Valid() && |rows| == m.total && Exported(rows, m)
    ensures claimed == rows
  {
    hide Width, Decoded, Encoded, Fits;
    var store := new PreloadStore(m);
    while store.loaded < m.total
      invariant fresh(store) && fresh(store.data) && store.m == m && HasRows(store, rows)
      invariant !store.closed && !store.armed && store.nextSlot == store.committed == 0
      decreases m.total - store.loaded
    {
      var count := m.NextBlock(store.loaded);
      LoadBlock(store, rows, rows[store.loaded..store.loaded + count]);
    }
    var ok := store.Seal(m.total, true);
    claimed := [];
    for step := 0 to m.total
      invariant fresh(store) && fresh(store.data) && store.m == m && HasRows(store, rows) && store.loaded == m.total
      invariant !store.closed && store.armed && store.nextSlot == store.committed == step
      invariant claimed == rows[..step]
    {
      ghost var content := store.content;
      var row := store.Claim(step, true);
      ClaimedRow(rows[step], m);
      claimed := claimed + [row.value];
      ok := store.Commit(step);
    }
    assert rows[..m.total] == rows;
  }

  lemma {:induction false} ClaimedRow(row: seq<nat>, m: Manifest)
    requires m.Valid() && |row| == m.rowValues && ResidueCodec.Canonical(row, m.modulus)
    ensures |Encoded(row, Width(m.modulus))| == m.rowValues * Width(m.modulus)
    ensures Decoded(Encoded(row, Width(m.modulus)), Width(m.modulus), m.rowValues) == row
  {
    WidthFits(m.modulus);
    hide Width, Fits;
    DecodedEncoded(row, Width(m.modulus));
  }

  lemma {:induction false} Regroup(a: nat, b: nat, c: nat)
    ensures a * (b * c) == (a * b) * c
  {
  }

  lemma {:induction false} SumTimes(a: nat, b: nat, c: nat)
    ensures (a + b) * c == a * c + b * c
  {
  }
}
