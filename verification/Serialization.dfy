/** The byte form of leaf tables, submodels and whole indexes, and the parsers that undo it. */
module Serialization {
  import opened Entries
  import opened Links

  type Bytes = seq<nat>

  ghost function Bound(width: nat): nat {
    if width == 0 then 1 else 256 * Bound(width - 1)
  }

  /** Values of 8 bytes, and of a non-negative signed 4-byte count. */
  const MAX_WORD: nat := 0xFFFF_FFFF_FFFF_FFFF
  const MAX_COUNT: nat := 0x7FFF_FFFF

  type Word = w: nat | w <= MAX_WORD

  /** Little-endian bytes of a value. */
  function Encode(width: nat, x: nat): (r: Bytes)
    ensures |r| == width
  {
    if width == 0 then [] else [x % 256] + Encode(width - 1, x / 256)
  }

  function Decode(b: Bytes): nat {
    if b == [] then 0 else b[0] + 256 * Decode(b[1..])
  }

  lemma {:induction false} DecodeEncode(width: nat, x: nat)
    requires x < Bound(width)
    ensures Decode(Encode(width, x)) == x
  {
    if width > 0 {
      DecodeEncode(width - 1, x / 256);
      assert Encode(width, x)[1..] == Encode(width - 1, x / 256);
    }
  }

  lemma WordRoundTrip(x: nat)
    requires x <= MAX_WORD
    ensures Decode(Encode(8, x)) == x
  {
    assert Bound(4) == 0x1_0000_0000;
    assert Bound(8) == 256 * (256 * (256 * (256 * Bound(4))));
    DecodeEncode(8, x);
  }

  lemma CountRoundTrip(x: nat)
    requires x <= MAX_COUNT
    ensures Decode(Encode(4, x)) == x
  {
    assert Bound(2) == 65536 && Bound(4) == 256 * (256 * Bound(2));
    DecodeEncode(4, x);
  }

  lemma Multiples(k: int, d: nat)
    ensures k >= 1 ==> k * d >= d
    ensures k <= -1 ==> k * d + d <= 0
  {
    if k >= 1 { assert (k - 1) * d >= 0; }
    if k <= -1 { assert (-k - 1) * d >= 0; }
  }

  lemma DivParts(n: nat, d: nat) returns (a: nat, b: nat)
    requires d > 0
    ensures a == n / d && n == a * d + b && b < d
  {
    a, b := n / d, n % d;
  }

  lemma DivUnique(n: nat, d: nat, q: nat, r: nat)
    requires d > 0 && n == q * d + r && r < d
    ensures n / d == q
  {
    var a, b := DivParts(n, d);
    assert (a - q) * d == a * d - q * d;
    Multiples(a - q, d);
  }

  lemma DivTwice(x: nat, b: nat)
    requires b > 0
    ensures x / 256 / b == x / (256 * b)
  {
    var q, r := x / 256 / b, x / 256 % b;
    assert x / 256 == q * b + r;
    assert x == (x / 256) * 256 + x % 256;
    assert x == q * (256 * b) + (r * 256 + x % 256);
    DivUnique(x, 256 * b, q, r * 256 + x % 256);
  }

  lemma {:induction false} BoundPositive(i: nat)
    ensures Bound(i) > 0
  {
    if i > 0 { BoundPositive(i - 1); }
  }

  /** Byte i is digit i of the value to the base 256: the least significant one comes first. */
  lemma {:induction false} EncodeAt(width: nat, x: nat, i: nat)
    requires i < width
    ensures Bound(i) > 0 && Encode(width, x)[i] == x / Bound(i) % 256
  {
    BoundPositive(i);
    if i > 0 {
      EncodeAt(width - 1, x / 256, i - 1);
      DivTwice(x, Bound(i - 1));
    }
  }

  ghost function EncodeAll(xs: seq<nat>): (r: Bytes)
    ensures |r| == 8 * |xs|
  {
    if xs == [] then [] else EncodeAll(xs[..|xs| - 1]) + Encode(8, xs[|xs| - 1])
  }

  lemma {:induction false} EncodeAllAt(xs: seq<nat>, i: nat)
    requires i < |xs|
    ensures EncodeAll(xs)[8 * i..8 * i + 8] == Encode(8, xs[i])
  {
    if i < |xs| - 1 {
      EncodeAllAt(xs[..|xs| - 1], i);
    }
  }

  /** The i-th 8-byte word from a place on. */
  function WordAt(b: Bytes, from: nat, i: nat): nat
    requires from + 8 * i + 8 <= |b|
  {
    Decode(b[from + 8 * i..from + 8 * i + 8])
  }

  lemma WordOfAll(pre: Bytes, xs: seq<nat>, post: Bytes, i: nat)
    requires i < |xs| && xs[i] <= MAX_WORD
    ensures |pre| + 8 * i + 8 <= |pre + EncodeAll(xs) + post|
    ensures WordAt(pre + EncodeAll(xs) + post, |pre|, i) == xs[i]
  {
    var b := pre + EncodeAll(xs) + post;
    assert b[|pre| + 8 * i..|pre| + 8 * i + 8] == EncodeAll(xs)[8 * i..8 * i + 8];
    EncodeAllAt(xs, i);
    WordRoundTrip(xs[i]);
  }

  // ---------- leaf tables ----------

  /** A table entry as a word: lock bit and region 0, 8 bits of synonym slot, 48 bits of leaf number. */
  function EntryWord(te: TableEntry): (w: nat)
    ensures w <= MAX_WORD
  {
    te.synonymLeaf % 256 * 256 + te.leafNum % LEAF_NUMS * 65536
  }

  function WordEntry(w: nat): TableEntry {
    TableEntry(w / 65536 % LEAF_NUMS, w / 256 % 256)
  }

  /** An entry survives exactly if its fields are wide enough for it. */
  lemma EntryRoundTrip(te: TableEntry)
    ensures WordEntry(EntryWord(te)) == te <==> te.leafNum < LEAF_NUMS && te.synonymLeaf < 256
  {
    var n, s, w := te.leafNum % LEAF_NUMS, te.synonymLeaf % 256, EntryWord(te);
    assert w == (n * 256 + s) * 256 && w / 256 == n * 256 + s;
    assert w / 65536 == n;
  }

  /** Lock bit and region in the lowest byte, the synonym slot in the next one, the leaf number in the upper 48 bits. */
  lemma EntryLayout(te: TableEntry)
    ensures var w := EntryWord(te);
            w % 256 == 0 && w / 256 % 256 == te.synonymLeaf % 256 && w / 65536 == te.leafNum % LEAF_NUMS
  {
    var n, s, w := te.leafNum % LEAF_NUMS, te.synonymLeaf % 256, EntryWord(te);
    assert w == (n * 256 + s) * 256 && w / 256 == n * 256 + s;
  }

  /** Table entries and synonym slots as the 64-bit words they are. */
  datatype TableImage = TableImage(table: seq<nat>, synonyms: seq<nat>)

  predicate AllWords(xs: seq<nat>) { forall i :: 0 <= i < |xs| ==> xs[i] <= MAX_WORD }

  /** Every word is one, and the submodel's bytes can be counted. */
  ghost predicate TableFits(t: TableImage) {
    && AllWords(t.table) && AllWords(t.synonyms)
    && |t.synonyms| == SYNONYM_MAX && 32 + 8 * (|t.table| + SYNONYM_MAX) <= MAX_COUNT
  }

  ghost function TableBytes(t: TableImage): (r: Bytes)
    ensures |r| == 4 + 8 * |t.table| + 8 * |t.synonyms|
  {
    Encode(4, |t.table|) + EncodeAll(t.table) + EncodeAll(t.synonyms)
  }

  method SerializeWords(xs: seq<nat>, res: Bytes) returns (r: Bytes)
    ensures r == res + EncodeAll(xs)
  {
    r := res;
    for i := 0 to |xs|
      invariant r == res + EncodeAll(xs[..i])
    {
      assert xs[..i + 1][..i] == xs[..i];
      r := r + Encode(8, xs[i]);
    }
    assert xs[..|xs|] == xs;
  }

  method SerializeTable(t: TableImage) returns (r: Bytes)
    ensures r == TableBytes(t)
  {
    r := SerializeWords(t.table, Encode(4, |t.table|));
    r := SerializeWords(t.synonyms, r);
  }

  lemma PartOfJoined(pre: Bytes, b: Bytes, post: Bytes, at: nat, n: nat)
    requires at + n <= |b|
    ensures (pre + b + post)[|pre| + at..|pre| + at + n] == b[at..at + n]
  {
  }

  /** The number of entries, the entries, and the synonym slots, at fixed places. */
  lemma TableLayout(t: TableImage, i: nat)
    ensures TableBytes(t)[..4] == Encode(4, |t.table|)
    ensures i < |t.table| ==> TableBytes(t)[4 + 8 * i..12 + 8 * i] == Encode(8, t.table[i])
    ensures i < |t.synonyms| ==>
              var at := 4 + 8 * (|t.table| + i); TableBytes(t)[at..at + 8] == Encode(8, t.synonyms[i])
  {
    hide Encode, EncodeAll;
    var head, mid, tail := Encode(4, |t.table|), EncodeAll(t.table), EncodeAll(t.synonyms);
    if i < |t.table| {
      EncodeAllAt(t.table, i);
      PartOfJoined(head, mid, tail, 8 * i, 8);
    }
    if i < |t.synonyms| {
      EncodeAllAt(t.synonyms, i);
      PartOfJoined(head + mid, tail, [], 8 * i, 8);
      assert (head + mid) + tail + [] == TableBytes(t);
    }
  }

  /** What the parser of a leaf table makes of any bytes; None where one of its checks fails. */
  ghost function ParsedTable(b: Bytes): Option<TableImage> {
    if |b| <= 4 then None else
    var n := Decode(b[..4]);
    if |b| < 4 + 8 * (n + SYNONYM_MAX) then None else
    Some(TableImage(seq(n, i requires 0 <= i < n => WordAt(b, 4, i)),
                    seq(SYNONYM_MAX, i requires 0 <= i < SYNONYM_MAX => WordAt(b, 4 + 8 * n, i))))
  }

  method DeserializeWords(b: Bytes, from: nat, n: nat) returns (r: seq<nat>)
    requires from + 8 * n <= |b|
    ensures |r| == n && forall i :: 0 <= i < n ==> r[i] == WordAt(b, from, i)
  {
    r := [];
    for i := 0 to n
      invariant |r| == i && forall j :: 0 <= j < i ==> r[j] == WordAt(b, from, j)
    {
      r := r + [WordAt(b, from, i)];
    }
  }

  method DeserializeTable(b: Bytes) returns (r: Option<TableImage>)
    ensures r == ParsedTable(b)
  {
    if |b| <= 4 {
      return None;
    }
    var n := Decode(b[..4]);
    if |b| < 4 + 8 * (n + SYNONYM_MAX) {
      return None;
    }
    var table := DeserializeWords(b, 4, n);
    var synonyms := DeserializeWords(b, 4 + 8 * n, SYNONYM_MAX);
    r := Some(TableImage(table, synonyms));
    assert r.value == ParsedTable(b).value;
  }

  lemma TableRoundTrip(t: TableImage)
    requires TableFits(t)
    ensures ParsedTable(TableBytes(t)) == Some(t)
  {
    var b, n := TableBytes(t), |t.table|;
    var head, mid, tail := Encode(4, n), EncodeAll(t.table), EncodeAll(t.synonyms);
    assert b[..4] == head;
    CountRoundTrip(n);
    forall i | 0 <= i < n ensures WordAt(b, 4, i) == t.table[i] {
      WordOfAll(head, t.table, tail, i);
    }
    forall i | 0 <= i < SYNONYM_MAX ensures WordAt(b, 4 + 8 * n, i) == t.synonyms[i] {
      assert b == head + mid + tail + [];
      WordOfAll(head + mid, t.synonyms, [], i);
    }
    var p := ParsedTable(b).value;
    assert p.table == t.table && p.synonyms == t.synonyms;
  }

  function EntryWords(es: seq<TableEntry>): (r: seq<nat>)
    ensures |r| == |es| && forall i :: 0 <= i < |r| ==> r[i] == EntryWord(es[i])
  {
    seq(|es|, i requires 0 <= i < |es| => EntryWord(es[i]))
  }

  function WordEntries(ws: seq<nat>): (r: seq<TableEntry>)
    ensures |r| == |ws| && forall i :: 0 <= i < |r| ==> r[i] == WordEntry(ws[i])
  {
    seq(|ws|, i requires 0 <= i < |ws| => WordEntry(ws[i]))
  }

  lemma EntriesRoundTrip(es: seq<TableEntry>)
    ensures WordEntries(EntryWords(es)) == es <==> EntriesFit(es)
  {
    var r := WordEntries(EntryWords(es));
    forall i | 0 <= i < |es| ensures r[i] == es[i] <==> es[i].leafNum < LEAF_NUMS && es[i].synonymLeaf < 256 {
      EntryRoundTrip(es[i]);
    }
    if EntriesFit(es) {
      assert forall i :: 0 <= i < |es| ==> r[i] == es[i];
    } else {
      var i :| 0 <= i < |es| && !(es[i].leafNum < LEAF_NUMS && es[i].synonymLeaf < 256);
      assert r[i] != es[i];
    }
  }

  /** A leaf table with its synonym slots comes back from its bytes exactly if all its entries fit their words. */
  lemma LeafTableSurvives(table: seq<TableEntry>, synonyms: seq<TableEntry>)
    requires |synonyms| == SYNONYM_MAX && 32 + 8 * (|table| + SYNONYM_MAX) <= MAX_COUNT
    ensures var r := ParsedTable(TableBytes(TableImage(EntryWords(table), EntryWords(synonyms))));
            && r.Some?
            && (EntriesFit(table) && EntriesFit(synonyms) <==>
                  WordEntries(r.value.table) == table && WordEntries(r.value.synonyms) == synonyms)
  {
    hide EntryWord, WordEntry;
    TableRoundTrip(TableImage(EntryWords(table), EntryWords(synonyms)));
    EntriesRoundTrip(table);
    EntriesRoundTrip(synonyms);
  }

  // ---------- submodels ----------

  /** A submodel: the bit patterns of slope and intercept, the capacity, and its table. */
  datatype ModelImage = ModelImage(slope: nat, icpt: nat, capacity: nat, table: TableImage)

  ghost predicate ModelFits(m: ModelImage) {
    m.slope <= MAX_WORD && m.icpt <= MAX_WORD && m.capacity <= MAX_WORD && TableFits(m.table)
  }

  ghost function ModelBytes(m: ModelImage): (r: Bytes)
    ensures |r| == 28 + |TableBytes(m.table)|
  {
    EncodeAll([m.slope, m.icpt, m.capacity]) + Encode(4, |TableBytes(m.table)|) + TableBytes(m.table)
  }

  /** Slope, intercept, capacity, the length of the table, and the table, at fixed places. */
  lemma ModelLayout(m: ModelImage)
    ensures var b, t := ModelBytes(m), TableBytes(m.table);
            && b[..8] == Encode(8, m.slope) && b[8..16] == Encode(8, m.icpt) && b[16..24] == Encode(8, m.capacity)
            && b[24..28] == Encode(4, |t|) && b[28..] == t
  {
    hide TableBytes, Encode;
    var b, xs := ModelBytes(m), [m.slope, m.icpt, m.capacity];
    EncodeAllAt(xs, 0);
    EncodeAllAt(xs, 1);
    EncodeAllAt(xs, 2);
    assert b[..8] == EncodeAll(xs)[0..8] && b[8..16] == EncodeAll(xs)[8..16] && b[16..24] == EncodeAll(xs)[16..24];
  }

  ghost function ParsedModel(b: Bytes): Option<ModelImage> {
    if |b| < 28 || |b| != 28 + Decode(b[24..28]) then None else
    var t := ParsedTable(b[28..]);
    if t.None? then None else
    Some(ModelImage(WordAt(b, 0, 0), WordAt(b, 0, 1), WordAt(b, 0, 2), t.value))
  }

  method SerializeModel(m: ModelImage) returns (r: Bytes)
    ensures r == ModelBytes(m)
  {
    r := SerializeWords([m.slope, m.icpt, m.capacity], []);
    var t := SerializeTable(m.table);
    r := r + Encode(4, |t|) + t;
  }

  method DeserializeModel(b: Bytes) returns (r: Option<ModelImage>)
    ensures r == ParsedModel(b)
  {
    if |b| < 28 || |b| != 28 + Decode(b[24..28]) {
      return None;
    }
    var t := DeserializeTable(b[28..]);
    if t.None? {
      return None;
    }
    r := Some(ModelImage(WordAt(b, 0, 0), WordAt(b, 0, 1), WordAt(b, 0, 2), t.value));
  }

  lemma ModelRoundTrip(m: ModelImage)
    requires ModelFits(m)
    ensures ParsedModel(ModelBytes(m)) == Some(m)
  {
    hide ParsedTable;
    var b, xs, t := ModelBytes(m), [m.slope, m.icpt, m.capacity], TableBytes(m.table);
    assert b == [] + EncodeAll(xs) + (Encode(4, |t|) + t);
    forall i | 0 <= i < 3 ensures WordAt(b, 0, i) == xs[i] {
      WordOfAll([], xs, Encode(4, |t|) + t, i);
    }
    assert b[24..28] == Encode(4, |t|) && b[28..] == t;
    CountRoundTrip(|t|);
    TableRoundTrip(m.table);
  }

  // ---------- the index as one string ----------

  datatype Keyed = Keyed(key: nat, model: ModelImage)

  ghost predicate AllFit(ms: seq<Keyed>) {
    forall i :: 0 <= i < |ms| ==> ms[i].key <= MAX_WORD && ModelFits(ms[i].model)
  }

  ghost function KeyedBytes(m: Keyed): (r: Bytes)
    ensures |r| > 0
  {
    Encode(8, m.key) + Encode(4, |ModelBytes(m.model)|) + ModelBytes(m.model)
  }

  ghost function ListBytes(ms: seq<Keyed>): (r: Bytes)
    ensures ms != [] ==> |r| > 0
  {
    if ms == [] then [] else KeyedBytes(ms[0]) + ListBytes(ms[1..])
  }

  ghost function IndexBytes(ms: seq<Keyed>): Bytes {
    Encode(4, |ListBytes(ms)|) + ListBytes(ms)
  }

  ghost function Prepend(ms: seq<Keyed>, rest: Option<seq<Keyed>>): Option<seq<Keyed>> {
    if rest.None? then None else Some(ms + rest.value)
  }

  lemma PrependNone(rest: Option<seq<Keyed>>)
    ensures Prepend([], rest) == rest
  {
    if rest.Some? { assert [] + rest.value == rest.value; }
  }

  lemma PrependAll(ms: seq<Keyed>)
    ensures Prepend(ms, Some([])) == Some(ms)
  {
    assert ms + [] == ms;
  }

  lemma PrependRest(ms: seq<Keyed>)
    requires ms != []
    ensures Prepend([Keyed(ms[0].key, ms[0].model)], Some(ms[1..])) == Some(ms)
  {
    assert [ms[0]] + ms[1..] == ms;
  }

  lemma PrependStep(ms: seq<Keyed>, m: Keyed, rest: Option<seq<Keyed>>)
    ensures Prepend(ms, Prepend([m], rest)) == Prepend(ms + [m], rest)
  {
    if rest.Some? { assert ms + ([m] + rest.value) == (ms + [m]) + rest.value; }
  }

  /** What the parsing loop makes of the bytes behind the size. */
  ghost function ParsedList(b: Bytes): Option<seq<Keyed>>
    decreases |b|
  {
    if b == [] then Some([]) else
    if |b| < 12 || |b| < 12 + Decode(b[8..12]) then None else
    var end := 12 + Decode(b[8..12]);
    var m, rest := ParsedModel(b[12..end]), ParsedList(b[end..]);
    if m.None? then None else Prepend([Keyed(Decode(b[..8]), m.value)], rest)
  }

  /** The parsing constructor insists on more than an empty list of models. */
  ghost function ParsedIndex(b: Bytes): Option<seq<Keyed>> {
    if |b| <= 4 || |b| != 4 + Decode(b[..4]) then None else ParsedList(b[4..])
  }

  /** One round of the parsing loop: the next key and model, and where the one after it starts. */
  method NextModel(left: Bytes) returns (r: Option<(Keyed, nat)>)
    requires left != []
    ensures r.None? ==> ParsedList(left).None?
    ensures r.Some? ==>
              && 0 < r.value.1 <= |left|
              && ParsedList(left) == Prepend([r.value.0], ParsedList(left[r.value.1..]))
  {
    hide ParsedModel, Prepend;
    if |left| < 12 || |left| < 12 + Decode(left[8..12]) {
      return None;
    }
    var end := 12 + Decode(left[8..12]);
    var m := DeserializeModel(left[12..end]);
    if m.None? {
      return None;
    }
    r := Some((Keyed(Decode(left[..8]), m.value), end));
  }

  lemma NothingLeft()
    ensures ParsedList([]) == Some([])
  {
  }

  method Deserialize(b: Bytes) returns (r: Option<seq<Keyed>>)
    ensures r == ParsedIndex(b)
  {
    if |b| <= 4 || |b| != 4 + Decode(b[..4]) {
      return None;
    }
    hide Decode, ParsedList, Prepend;
    PrependNone(ParsedList(b[4..]));
    var cur, ms := 4, [];
    while cur < |b|
      invariant 4 <= cur <= |b|
      invariant ParsedList(b[4..]) == Prepend(ms, ParsedList(b[cur..]))
      decreases |b| - cur
    {
      var one := NextModel(b[cur..]);
      if one.None? {
        return None;
      }
      var (m, end) := one.value;
      assert b[cur..][end..] == b[cur + end..];
      PrependStep(ms, m, ParsedList(b[cur + end..]));
      ms := ms + [m];
      cur := cur + end;
    }
    r := Some(ms);
    PrependAll(ms);
    assert ParsedList([]) == Some([]) by { NothingLeft(); }
  }

  method Serialize(ms: seq<Keyed>) returns (r: Bytes)
    ensures r == IndexBytes(ms)
  {
    r := [];
    for i := 0 to |ms|
      invariant ListBytes(ms) == r + ListBytes(ms[i..])
    {
      var b := SerializeModel(ms[i].model);
      assert ms[i..][1..] == ms[i + 1..];
      assert r + (KeyedBytes(ms[i]) + ListBytes(ms[i + 1..])) == (r + KeyedBytes(ms[i])) + ListBytes(ms[i + 1..]);
      r := r + (Encode(8, ms[i].key) + Encode(4, |b|) + b);
    }
    assert ListBytes(ms) == r;
    r := Encode(4, |r|) + r;
  }

  lemma Slices(key: Bytes, count: Bytes, image: Bytes, rest: Bytes)
    requires |key| == 8 && |count| == 4
    ensures var b := (key + count + image) + rest;
            && b[..8] == key && b[8..12] == count
            && b[12..12 + |image|] == image && b[12 + |image|..] == rest
  {
  }

  lemma ModelSize(m: ModelImage)
    requires ModelFits(m)
    ensures 0 < |ModelBytes(m)| <= MAX_COUNT
  {
  }

  /** The first model of a list parses, and the rest follows. */
  lemma KeyedParts(m: Keyed, rest: Bytes)
    requires m.key <= MAX_WORD && ModelFits(m.model)
    ensures var b, image := KeyedBytes(m) + rest, ModelBytes(m.model);
            && |b| >= 12 && Decode(b[..8]) == m.key && Decode(b[8..12]) == |image| && |b| >= 12 + |image|
            && b[12..12 + |image|] == image && b[12 + |image|..] == rest
  {
    hide ModelBytes, Encode, Decode, ModelFits;
    var image := ModelBytes(m.model);
    Slices(Encode(8, m.key), Encode(4, |image|), image, rest);
    ModelSize(m.model);
    WordRoundTrip(m.key);
    CountRoundTrip(|image|);
  }

  /** No model is longer than the list it is in. */
  lemma {:induction false} PartSize(ms: seq<Keyed>, i: nat)
    requires i < |ms|
    ensures |ModelBytes(ms[i].model)| + 12 <= |ListBytes(ms)|
  {
    hide ModelBytes;
    if i > 0 {
      assert ms[1..][i - 1] == ms[i];
      PartSize(ms[1..], i - 1);
    }
  }

  lemma {:induction false} ListRoundTrip(ms: seq<Keyed>)
    requires AllFit(ms)
    ensures ParsedList(ListBytes(ms)) == Some(ms)
    decreases |ms|
  {
    hide ParsedModel, ModelBytes, ModelFits, KeyedBytes, Decode, Prepend;
    if ms != [] {
      PrependRest(ms);
      KeyedParts(ms[0], ListBytes(ms[1..]));
      ModelRoundTrip(ms[0].model);
      ListRoundTrip(ms[1..]);
    }
  }

  /** The string form and its parser undo each other, for every index but the empty one. */
  lemma IndexRoundTrip(ms: seq<Keyed>)
    requires AllFit(ms) && |ListBytes(ms)| <= MAX_COUNT
    ensures ParsedIndex(IndexBytes(ms)) == if ms == [] then None else Some(ms)
  {
    var b := IndexBytes(ms);
    assert b[..4] == Encode(4, |ListBytes(ms)|) && b[4..] == ListBytes(ms);
    CountRoundTrip(|ListBytes(ms)|);
    ListRoundTrip(ms);
  }
}
