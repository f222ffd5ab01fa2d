/** The bytes an index checksum commits to.

    Lengths are 64-bit, words 32-bit, all little endian; strings are their UTF-8 bytes.  The
    encoding is uniquely decodable: a decoder gives back the plan hash, the ordered identities,
    the dense bits and the sparse pairs. */
module IndexChecksum {
  import opened Wrappers
  import opened Artifacts
  import opened IndexJoin
  import Utf8

  datatype Pair = Pair(index: Word, bits: Word)

  /** What the checksum is about. */
  datatype Row = Row(recordId: string, chunkId: string, dense: Vector, sparse: seq<Pair>)

  datatype Contents = Contents(planHash: string, rows: seq<Row>)

  const U64: nat := 0x1_0000_0000_0000_0000

  /** Lengths fit the 64-bit prefix, as they do in memory. */
  ghost predicate TextFits(s: string) { |Utf8.TextBytes(s)| < U64 }

  ghost predicate RowFits(r: Row) { TextFits(r.recordId) && TextFits(r.chunkId) && |r.dense| < U64 && |r.sparse| < U64 }

  ghost predicate Fits(c: Contents) {
    TextFits(c.planHash) && |c.rows| < U64 && forall i :: 0 <= i < |c.rows| ==> RowFits(c.rows[i])
  }

  // ---------------------------------------------------------------- encoding

  /** to_le_bytes with `k` bytes. */
  function Little(n: nat, k: nat): (r: Bytes)
    ensures |r| == k
  {
    if k == 0 then [] else [n % 256] + Little(n / 256, k - 1)
  }

  function PutString(s: string): Bytes { Little(|Utf8.TextBytes(s)|, 8) + Utf8.TextBytes(s) }

  function PutWords(words: seq<Word>): Bytes {
    if words == [] then [] else Little(words[0], 4) + PutWords(words[1..])
  }

  function PutPairs(pairs: seq<Pair>): Bytes {
    if pairs == [] then [] else Little(pairs[0].index, 4) + Little(pairs[0].bits, 4) + PutPairs(pairs[1..])
  }

  function PutRow(r: Row): Bytes {
    PutString(r.recordId) + PutString(r.chunkId) + Little(|r.dense|, 8) + PutWords(r.dense) + Little(|r.sparse|, 8)
      + PutPairs(r.sparse)
  }

  function PutRows(rows: seq<Row>): Bytes {
    if rows == [] then [] else PutRow(rows[0]) + PutRows(rows[1..])
  }

  /** "regulagraph-index-plan-v1" and a zero byte. */
  const DOMAIN: Bytes := [
    114, 101, 103, 117, 108, 97, 103, 114, 97, 112, 104, 45, 105, 110, 100, 101, 120, 45, 112, 108, 97, 110, 45, 118,
    49, 0]

  function Preimage(c: Contents): Bytes { DOMAIN + PutString(c.planHash) + Little(|c.rows|, 8) + PutRows(c.rows) }

  // ---------------------------------------------------------------- decoding

  /** A value read off the front, and what is left. */
  datatype Read<T> = Short | Got(value: T, rest: Bytes)

  function FromLittle(b: Bytes): nat { if b == [] then 0 else Utf8.Value(b[0]) + 256 * FromLittle(b[1..]) }

  function GetNumber(b: Bytes, k: nat): Read<nat> { if |b| < k then Short else Got(FromLittle(b[..k]), b[k..]) }

  function GetWord(b: Bytes): Read<Word> {
    match GetNumber(b, 4) case Short => Short case Got(n, rest) => if n < 0x1_0000_0000 then Got(n, rest) else Short
  }

  function GetString(b: Bytes): Read<string> {
    match GetNumber(b, 8)
    case Short => Short
    case Got(n, rest) =>
      if |rest| < n || !Utf8.WellFormed(rest[..n]) then Short else Got(Utf8.TextOf(rest[..n]), rest[n..])
  }

  function GetWords(b: Bytes, n: nat): Read<seq<Word>>
    decreases n
  {
    if n == 0 then Got([], b)
    else
      match GetWord(b)
      case Short => Short
      case Got(w, rest) => (match GetWords(rest, n - 1) case Short => Short case Got(ws, rest') => Got([w] + ws, rest'))
  }

  function GetPairs(b: Bytes, n: nat): Read<seq<Pair>>
    decreases n
  {
    if n == 0 then Got([], b)
    else
      match GetWords(b, 2)
      case Short => Short
      case Got(ws, rest) =>
        if |ws| != 2 then Short
        else (match GetPairs(rest, n - 1) case Short => Short case Got(ps, rest') =>
          Got([Pair(ws[0], ws[1])] + ps, rest'))
  }

  function GetRow(b: Bytes): Read<Row> {
    match GetString(b)
    case Short => Short
    case Got(recordId, b1) =>
      match GetString(b1)
      case Short => Short
      case Got(chunkId, b2) =>
        match GetNumber(b2, 8)
        case Short => Short
        case Got(dense, b3) =>
          match GetWords(b3, dense)
          case Short => Short
          case Got(words, b4) =>
            match GetNumber(b4, 8)
            case Short => Short
            case Got(sparse, b5) =>
              match GetPairs(b5, sparse)
              case Short => Short
              case Got(pairs, b6) => Got(Row(recordId, chunkId, words, pairs), b6)
  }

  function GetRows(b: Bytes, n: nat): Read<seq<Row>>
    decreases n
  {
    if n == 0 then Got([], b)
    else
      match GetRow(b)
      case Short => Short
      case Got(r, rest) => (match GetRows(rest, n - 1) case Short => Short case Got(rs, rest') => Got([r] + rs, rest'))
  }

  function Decode(b: Bytes): Option<Contents> {
    if |b| < |DOMAIN| || b[..|DOMAIN|] != DOMAIN then None
    else
      match GetString(b[|DOMAIN|..])
      case Short => None
      case Got(planHash, b1) =>
        match GetNumber(b1, 8)
        case Short => None
        case Got(n, b2) =>
          match GetRows(b2, n)
          case Short => None
          case Got(rows, b3) => if b3 == [] then Some(Contents(planHash, rows)) else None
  }

  // ---------------------------------------------------------------- round trip

  function Power(k: nat): nat { if k == 0 then 1 else 256 * Power(k - 1) }

  lemma {:induction false} LittleReads(n: nat, k: nat)
    requires n < Power(k)
    ensures FromLittle(Little(n, k)) == n
  {
    if k > 0 {
      LittleReads(n / 256, k - 1);
      assert Little(n, k)[1..] == Little(n / 256, k - 1);
    }
  }

  lemma {:induction false} Powers()
    ensures Power(4) == 0x1_0000_0000 && Power(8) == U64
  {
    assert Power(2) == 65536;
    assert Power(4) == 256 * (256 * Power(2));
    assert Power(6) == 256 * (256 * Power(4));
    assert Power(8) == 256 * (256 * Power(6));
  }

  lemma {:induction false} NumberReads(n: nat, k: nat, rest: Bytes)
    requires n < Power(k)
    ensures GetNumber(Little(n, k) + rest, k) == Got(n, rest)
  {
    LittleReads(n, k);
    var b := Little(n, k) + rest;
    assert b[..k] == Little(n, k) && b[k..] == rest;
  }

  lemma {:induction false} LengthReads(n: nat, rest: Bytes)
    requires n < U64
    ensures GetNumber(Little(n, 8) + rest, 8) == Got(n, rest)
  {
    Powers();
    NumberReads(n, 8, rest);
  }

  lemma {:induction false} WordReads(w: Word, rest: Bytes)
    ensures GetWord(Little(w, 4) + rest) == Got(w, rest)
  {
    Powers();
    NumberReads(w, 4, rest);
  }

  lemma {:induction false} StringReads(s: string, rest: Bytes)
    requires TextFits(s)
    ensures GetString(PutString(s) + rest) == Got(s, rest)
  {
    var b := Utf8.TextBytes(s);
    Utf8.TextRoundTrip(s);
    hide Utf8.TextBytes, Utf8.TextOf, Utf8.WellFormed;
    assert PutString(s) + rest == Little(|b|, 8) + (b + rest);
    LengthReads(|b|, b + rest);
    assert (b + rest)[..|b|] == b && (b + rest)[|b|..] == rest;
  }

  lemma {:induction false} WordsRead(words: seq<Word>, rest: Bytes)
    ensures GetWords(PutWords(words) + rest, |words|) == Got(words, rest)
  {
    if words == [] {
      assert PutWords(words) + rest == rest;
    } else {
      var more := PutWords(words[1..]) + rest;
      assert PutWords(words) + rest == Little(words[0], 4) + more;
      WordReads(words[0], more);
      WordsRead(words[1..], rest);
      assert words == [words[0]] + words[1..];
    }
  }

  lemma {:induction false} PairReads(p: Pair, more: Bytes)
    ensures GetWords(Little(p.index, 4) + Little(p.bits, 4) + more, 2) == Got([p.index, p.bits], more)
  {
    var words := [p.index, p.bits];
    assert words[1..] == [p.bits] && [p.bits][1..] == [];
    assert PutWords([p.bits]) == Little(p.bits, 4) + PutWords([]);
    assert PutWords(words) == Little(p.index, 4) + PutWords([p.bits]);
    assert PutWords(words) == Little(p.index, 4) + Little(p.bits, 4);
    WordsRead(words, more);
  }

  lemma {:induction false} PairsRead(pairs: seq<Pair>, rest: Bytes)
    ensures GetPairs(PutPairs(pairs) + rest, |pairs|) == Got(pairs, rest)
  {
    if pairs == [] {
      assert PutPairs(pairs) + rest == rest;
    } else {
      var more := PutPairs(pairs[1..]) + rest;
      assert PutPairs(pairs) + rest == Little(pairs[0].index, 4) + Little(pairs[0].bits, 4) + more;
      PairReads(pairs[0], more);
      hide GetWords;
      PairsRead(pairs[1..], rest);
      assert pairs == [pairs[0]] + pairs[1..];
    }
  }

  lemma {:induction false} RowReads(r: Row, rest: Bytes)
    requires RowFits(r)
    ensures GetRow(PutRow(r) + rest) == Got(r, rest)
  {
    hide PutString, PutWords, PutPairs, Little, GetString, GetNumber, GetWords, GetPairs;
    var b5 := PutPairs(r.sparse) + rest;
    var b4 := Little(|r.sparse|, 8) + b5;
    var b3 := PutWords(r.dense) + b4;
    var b2 := Little(|r.dense|, 8) + b3;
    var b1 := PutString(r.chunkId) + b2;
    assert PutRow(r) + rest == PutString(r.recordId) + b1;
    StringReads(r.recordId, b1);
    StringReads(r.chunkId, b2);
    LengthReads(|r.dense|, b3);
    WordsRead(r.dense, b4);
    LengthReads(|r.sparse|, b5);
    PairsRead(r.sparse, rest);
  }

  lemma {:induction false} RowsRead(rows: seq<Row>, rest: Bytes)
    requires forall i :: 0 <= i < |rows| ==> RowFits(rows[i])
    ensures GetRows(PutRows(rows) + rest, |rows|) == Got(rows, rest)
  {
    hide PutRow, GetRow;
    if rows == [] {
      assert PutRows(rows) + rest == rest;
    } else {
      var more := PutRows(rows[1..]) + rest;
      assert PutRows(rows) + rest == PutRow(rows[0]) + more;
      RowReads(rows[0], more);
      RowsRead(rows[1..], rest);
      assert rows == [rows[0]] + rows[1..];
    }
  }

  /** Decoding the hashed bytes gives back everything they commit to. */
  lemma {:induction false} DecodePreimage(c: Contents)
    requires Fits(c)
    ensures Decode(Preimage(c)) == Some(c)
  {
    hide PutString, PutRows, Little, GetString, GetNumber, GetRows;
    var b2 := PutRows(c.rows);
    var b1 := Little(|c.rows|, 8) + b2;
    var b0 := PutString(c.planHash) + b1;
    assert Preimage(c) == DOMAIN + b0;
    assert Preimage(c)[..|DOMAIN|] == DOMAIN && Preimage(c)[|DOMAIN|..] == b0;
    StringReads(c.planHash, b1);
    LengthReads(|c.rows|, b2);
    RowsRead(c.rows, []);
    assert b2 + [] == b2;
  }

  // ---------------------------------------------------------------- layout

  /** The number whose digits to the base 256 these are, the least one first. */
  function Weighted(b: Bytes): nat {
    if b == [] then 0 else Weighted(b[..|b| - 1]) + Utf8.Value(b[|b| - 1]) * Power(|b| - 1)
  }

  lemma {:induction false} WeightedCons(b: Bytes)
    requires b != []
    ensures Weighted(b) == Utf8.Value(b[0]) + 256 * Weighted(b[1..])
  {
    var m := |b| - 1;
    if m == 0 {
      assert b[..0] == [] && b[1..] == [];
    } else {
      WeightedCons(b[..m]);
      assert b[..m][1..] == b[1..][..m - 1];
      TimesPower(Utf8.Value(b[m]), m);
      hide Power;
    }
  }

  lemma {:induction false} TimesPower(x: nat, m: nat)
    requires m > 0
    ensures x * Power(m) == 256 * (x * Power(m - 1))
  {
  }

  /** A number is written with its least significant byte first. */
  lemma {:induction false} LittleWeighs(n: nat, k: nat)
    requires n < Power(k)
    ensures Weighted(Little(n, k)) == n
  {
    if k > 0 {
      LittleWeighs(n / 256, k - 1);
      WeightedCons(Little(n, k));
      assert Little(n, k)[1..] == Little(n / 256, k - 1);
      hide Weighted;
    }
  }

  lemma {:induction false} SliceAfter(a: Bytes, b: Bytes, i: nat, j: nat)
    requires i <= j <= |b|
    ensures (a + b)[|a| + i..|a| + j] == b[i..j]
  {
  }

  /** Word `i` of a vector stands at four times `i`. */
  lemma {:induction false} WordsLayout(words: seq<Word>, i: nat)
    requires i < |words|
    ensures |PutWords(words)| == 4 * |words| && PutWords(words)[4 * i..4 * i + 4] == Little(words[i], 4)
  {
    var first, rest := Little(words[0], 4), PutWords(words[1..]);
    assert PutWords(words) == first + rest;
    WordsLength(words[1..]);
    if i > 0 {
      WordsLayout(words[1..], i - 1);
      SliceAfter(first, rest, 4 * (i - 1), 4 * (i - 1) + 4);
    }
  }

  lemma {:induction false} WordsLength(words: seq<Word>)
    ensures |PutWords(words)| == 4 * |words|
  {
    if words != [] { WordsLength(words[1..]); }
  }

  /** Pair `i` stands at eight times `i`, the index before the value. */
  lemma {:induction false} PairsLayout(pairs: seq<Pair>, i: nat)
    requires i < |pairs|
    ensures |PutPairs(pairs)| == 8 * |pairs|
    ensures PutPairs(pairs)[8 * i..8 * i + 4] == Little(pairs[i].index, 4)
    ensures PutPairs(pairs)[8 * i + 4..8 * i + 8] == Little(pairs[i].bits, 4)
  {
    var first, rest := Little(pairs[0].index, 4) + Little(pairs[0].bits, 4), PutPairs(pairs[1..]);
    assert PutPairs(pairs) == first + rest;
    PairsLength(pairs[1..]);
    if i > 0 {
      PairsLayout(pairs[1..], i - 1);
      hide PutPairs, Little;
      SliceAfter(first, rest, 8 * (i - 1), 8 * (i - 1) + 4);
      SliceAfter(first, rest, 8 * (i - 1) + 4, 8 * (i - 1) + 8);
    } else {
      hide PutPairs, Little;
      assert (first + rest)[0..4] == first[0..4] && (first + rest)[4..8] == first[4..8];
    }
  }

  lemma {:induction false} PairsLength(pairs: seq<Pair>)
    ensures |PutPairs(pairs)| == 8 * |pairs|
  {
    if pairs != [] { PairsLength(pairs[1..]); }
  }

  /** Where the parts of a record stand: both identities with their lengths in front, then the number
      of dense values and the values, then the number of sparse pairs and the pairs. */
  lemma {:induction false} RowLayout(r: Row)
    ensures
      var b, a, c := PutRow(r), Utf8.TextBytes(r.recordId), Utf8.TextBytes(r.chunkId);
      var dense, sparse := 16 + |a| + |c|, 24 + |a| + |c| + 4 * |r.dense|;
      && |b| == sparse + 8 + 8 * |r.sparse|
      && b[..8] == Little(|a|, 8) && b[8..8 + |a|] == a
      && b[8 + |a|..16 + |a|] == Little(|c|, 8) && b[16 + |a|..dense] == c
      && b[dense..dense + 8] == Little(|r.dense|, 8) && b[dense + 8..sparse] == PutWords(r.dense)
      && b[sparse..sparse + 8] == Little(|r.sparse|, 8) && b[sparse + 8..] == PutPairs(r.sparse)
  {
    hide PutWords, PutPairs, Little, Utf8.TextBytes;
    WordsLength(r.dense);
    PairsLength(r.sparse);
  }

  /** The hashed bytes start with the format's name and a zero byte, the plan's hash and the number
      of records; the records follow in order. */
  lemma {:induction false} PreimageLayout(c: Contents, k: nat)
    requires k <= |c.rows|
    ensures
      var b, h := Preimage(c), Utf8.TextBytes(c.planHash);
      && |b| == 42 + |h| + |PutRows(c.rows)|
      && b[..26] == DOMAIN && b[26..34] == Little(|h|, 8) && b[34..34 + |h|] == h
      && b[34 + |h|..42 + |h|] == Little(|c.rows|, 8)
      && b[42 + |h|..] == PutRows(c.rows[..k]) + PutRows(c.rows[k..])
    ensures forall i :: 0 <= i < 25 ==> DOMAIN[i] == "regulagraph-index-plan-v1"[i] as int
    ensures DOMAIN[25] == 0
  {
    hide PutRows, Little, Utf8.TextBytes;
    RowsInOrder(c.rows, k);
  }

  lemma {:induction false} RowsInOrder(rows: seq<Row>, k: nat)
    requires k <= |rows|
    ensures PutRows(rows) == PutRows(rows[..k]) + PutRows(rows[k..])
  {
    hide PutRow;
    if k > 0 {
      RowsInOrder(rows[1..], k - 1);
      assert rows[..k][1..] == rows[1..][..k - 1] && rows[1..][k - 1..] == rows[k..];
    } else {
      assert rows[..0] == [] && rows[0..] == rows;
    }
  }

  /** Equal checksums mean equal contents, or the two byte strings collide under the digest. */
  lemma {:induction false} ChecksumCommits(hash: Digest, c: Contents, d: Contents)
    requires Fits(c) && Fits(d) && hash(Preimage(c)) == hash(Preimage(d))
    ensures c == d || Collide(hash, Preimage(c), Preimage(d))
  {
    DecodePreimage(c);
    DecodePreimage(d);
  }

  // ---------------------------------------------------------------- operations_checksum

  datatype IndexBatch = IndexBatch(planHash: Option<string>, records: seq<Record>)

  ghost predicate RecordComplete(r: Record) {
    r.dense.Some? && r.sparse.Some? && |r.sparse.value.indices| == |r.sparse.value.values|
  }

  ghost predicate Complete(b: IndexBatch) {
    b.planHash.Some? && forall i :: 0 <= i < |b.records| ==> RecordComplete(b.records[i])
  }

  function Zip(indices: seq<Word>, values: seq<Word>): (r: seq<Pair>)
    requires |indices| == |values|
    ensures |r| == |indices| && forall i :: 0 <= i < |r| ==> r[i] == Pair(indices[i], values[i])
  {
    seq(|indices|, i requires 0 <= i < |indices| => Pair(indices[i], values[i]))
  }

  function RowOf(r: Record): Row
    requires RecordComplete(r)
  {
    Row(r.recordId, r.chunkId, r.dense.value, Zip(r.sparse.value.indices, r.sparse.value.values))
  }

  function RowsOf(records: seq<Record>): (r: seq<Row>)
    requires forall i :: 0 <= i < |records| ==> RecordComplete(records[i])
    ensures |r| == |records| && forall i :: 0 <= i < |r| ==> r[i] == RowOf(records[i])
  {
    seq(|records|, i requires 0 <= i < |records| => RowOf(records[i]))
  }

  lemma {:induction false} PutRowsSnoc(rows: seq<Row>, r: Row)
    ensures PutRows(rows + [r]) == PutRows(rows) + PutRow(r)
  {
    hide PutRow;
    if rows == [] {
      assert rows + [r] == [r];
      assert PutRows([r]) == PutRow(r) + PutRows([]);
    } else {
      assert (rows + [r])[1..] == rows[1..] + [r];
      PutRowsSnoc(rows[1..], r);
    }
  }

  lemma {:induction false} PutWordsSnoc(words: seq<Word>, w: Word)
    ensures PutWords(words + [w]) == PutWords(words) + Little(w, 4)
  {
    if words == [] {
      assert words + [w] == [w];
      assert PutWords([w]) == Little(w, 4) + PutWords([]);
    } else {
      assert (words + [w])[1..] == words[1..] + [w];
      PutWordsSnoc(words[1..], w);
    }
  }

  lemma {:induction false} PutPairsSnoc(pairs: seq<Pair>, p: Pair)
    ensures PutPairs(pairs + [p]) == PutPairs(pairs) + (Little(p.index, 4) + Little(p.bits, 4))
  {
    if pairs == [] {
      assert pairs + [p] == [p];
      assert PutPairs([p]) == Little(p.index, 4) + Little(p.bits, 4) + PutPairs([]);
    } else {
      assert (pairs + [p])[1..] == pairs[1..] + [p];
      PutPairsSnoc(pairs[1..], p);
    }
  }

  method WriteWords(h: Bytes, words: seq<Word>) returns (h': Bytes)
    ensures h' == h + PutWords(words)
  {
    h' := h;
    for i := 0 to |words|
      invariant h' == h + PutWords(words[..i])
    {
      assert words[..i + 1] == words[..i] + [words[i]];
      PutWordsSnoc(words[..i], words[i]);
      h' := h' + Little(words[i], 4);
    }
    assert words[..|words|] == words;
  }

  lemma {:induction false} NoPairs(pairs: seq<Pair>)
    ensures PutPairs(pairs[..0]) == []
  {
  }

  method WritePairs(h: Bytes, indices: seq<Word>, values: seq<Word>) returns (h': Bytes)
    requires |indices| == |values|
    ensures h' == h + PutPairs(Zip(indices, values))
  {
    hide PutPairs, Little;
    ghost var pairs := Zip(indices, values);
    h' := h;
    assert PutPairs(pairs[..0]) == [] by { NoPairs(pairs); }
    for i := 0 to |indices|
      invariant h' == h + PutPairs(pairs[..i])
    {
      assert pairs[..i + 1] == pairs[..i] + [pairs[i]];
      PutPairsSnoc(pairs[..i], pairs[i]);
      h' := h' + Little(indices[i], 4) + Little(values[i], 4);
    }
    assert pairs[..|indices|] == pairs;
  }

  method WriteRecord(h: Bytes, record: Record) returns (h': Bytes)
    requires RecordComplete(record)
    ensures h' == h + PutRow(RowOf(record))
  {
    hide PutRow, PutString, PutWords, PutPairs, Little;
    var dense, sparse := record.dense.value, record.sparse.value;
    h' := h + PutString(record.recordId) + PutString(record.chunkId) + Little(|dense|, 8);
    h' := WriteWords(h', dense);
    h' := h' + Little(|sparse.indices|, 8);
    h' := WritePairs(h', sparse.indices, sparse.values);
    RowWritten(record);
  }

  /** What is fed to the hash for a batch: the encoding of its contents, or an error when the
      plan or a vector is missing or a sparse vector's lists differ in length. */
  method ChecksumInput(b: IndexBatch) returns (r: Option<Bytes>)
    ensures r.Some? <==> Complete(b)
    ensures r.Some? ==> r.value == Preimage(Contents(b.planHash.value, RowsOf(b.records)))
  {
    hide PutRow, PutString, Little, RowOf;
    if b.planHash.None? { return None; }
    var start := DOMAIN + PutString(b.planHash.value) + Little(|b.records|, 8);
    var h := start;
    assert PutRows([]) == [];
    hide PutRows;
    for k := 0 to |b.records|
      invariant forall i :: 0 <= i < k ==> RecordComplete(b.records[i])
      invariant h == start + PutRows(RowsOf(b.records[..k]))
    {
      var record := b.records[k];
      if record.dense.None? || record.sparse.None? { return None; }
      if |record.sparse.value.indices| != |record.sparse.value.values| { return None; }
      h := WriteRecord(h, record);
      assert RowsOf(b.records[..k + 1]) == RowsOf(b.records[..k]) + [RowOf(record)];
      PutRowsSnoc(RowsOf(b.records[..k]), RowOf(record));
    }
    assert b.records[..|b.records|] == b.records;
    r := Some(h);
  }

  lemma {:induction false} RowWritten(r: Record)
    requires RecordComplete(r)
    ensures PutRow(RowOf(r)) == PutString(r.recordId) + PutString(r.chunkId) + Little(|r.dense.value|, 8)
        + PutWords(r.dense.value)
         + Little(|r.sparse.value.indices|, 8) + PutPairs(Zip(r.sparse.value.indices, r.sparse.value.values))
  {
  }

  // ---------------------------------------------------------------- from native results to hashed bytes

  /** The bytes a build feeds to its checksum, if it gets that far. */
  ghost function Hashed(
      planHash: Option<string>, records: seq<Record>, items: seq<string>, results: seq<Response>, check: Check,
      accept: Check): Option<Bytes>
  {
    match Joined(records, items, results, check, accept)
    case None => None
    case Some(joined) =>
      if Complete(IndexBatch(planHash, joined)) then Some(Preimage(Contents(planHash.value, RowsOf(joined)))) else None
  }

  /** materialize_dense_vectors, finish and operations_checksum one after the other. */
  method FeedChecksum(
      planHash: Option<string>, records: seq<Record>, items: seq<string>, results: seq<Response>, check: Check,
      accept: Check) returns (r: Option<Bytes>)
    ensures r == Hashed(planHash, records, items, results, check, accept)
  {
    hide Joined, Preimage;
    var joined := JoinAll(records, items, results, check, accept);
    if joined.None? { return None; }
    r := ChecksumInput(IndexBatch(planHash, joined.value));
  }

  /** Whatever order the native service returns its results in, the build fails or succeeds alike
      and feeds the same bytes to the hash. */
  lemma {:induction false} HashedBytesIgnoreResultOrder(
      planHash: Option<string>, records: seq<Record>, items: seq<string>, a: seq<Response>, b: seq<Response>,
      check: Check, accept: Check)
    requires multiset(a) == multiset(b)
    ensures Hashed(planHash, records, items, a, check, accept) == Hashed(planHash, records, items, b, check, accept)
  {
    ResultOrderIsIrrelevant(records, items, a, b, check, accept);
  }

  /** The hashed bytes decode to the records' own identities and sparse vectors, in order, each
      with the dense bits the service computed for its own chunk. */
  lemma {:induction false} HashedBytesAreTheRecords(
      planHash: string, records: seq<Record>, items: seq<string>, results: seq<Response>, check: Check, accept: Check,
      k: nat)
    returns (j: nat)
    requires Hashed(Some(planHash), records, items, results, check, accept).Some? && k < |records|
    requires
      var joined := Joined(records, items, results, check, accept);
      joined.Some? && (Complete(IndexBatch(Some(planHash), joined.value)) ==>
        Fits(Contents(planHash, RowsOf(joined.value))))
    ensures
      var decoded := Decode(Hashed(Some(planHash), records, items, results, check, accept).value);
      && decoded.Some? && decoded.value.planHash == planHash && |decoded.value.rows| == |records|
      && j < |results| && results[j].id == records[k].chunkId && results[j].value.Embedded?
      && RecordComplete(records[k].(dense := Some(results[j].value.vector)))
      && decoded.value.rows[k] == RowOf(records[k].(dense := Some(results[j].value.vector)))
  {
    var joined := Joined(records, items, results, check, accept).value;
    j := EachRecordGetsItsOwn(records, items, results, check, accept, k);
    DecodePreimage(Contents(planHash, RowsOf(joined)));
    hide Joined, Decode, Preimage;
  }
}
