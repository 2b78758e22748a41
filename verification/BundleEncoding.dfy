/**
 The canonical byte string that a contract bundle is hashed and signed over,
 src/platform/bundle.rs. Texts are their UTF-8 bytes, which is also how the code orders them.
 SHA-256, hexadecimal decoding and the signature check are parameters, `Crypto`.
 */
module BundleEncoding {
  import opened Prelude

  type bytes = seq<byte>

  type u32 = n: int | 0 <= n < 0x1_0000_0000 witness 0

  type u64 = n: int | 0 <= n < 0x1_0000_0000_0000_0000 witness 0

  /** Named: a WASM module, a policy or a template. Entry: one line of the resolution map. */
  datatype Record =
    | Named(name: bytes, content: bytes)
    | Entry(dataset: bytes, operation: bytes, checkRef: bytes)

  type NamedItem = r: Record | r.Named? witness Named([], [])

  type EntryItem = r: Record | r.Entry? witness Entry([], [], [])

  datatype Manifest = Manifest(contractId: bytes, version: u64, compiledAt: u64)

  datatype Bundle = Bundle(manifest: Manifest, wasm: seq<NamedItem>, rego: seq<NamedItem>, sql: seq<NamedItem>, resolution: seq<EntryItem>)

  // ---- integers as bytes ----

  /** The low `width` bytes of `n`, most significant first: `as u32` truncates. */
  function BigEndian(n: nat, width: nat): (b: bytes)
    ensures |b| == width
  {
    if width == 0 then [] else BigEndian(n / 256, width - 1) + [n % 256]
  }

  function LittleEndian(n: nat, width: nat): (b: bytes)
    ensures |b| == width
  {
    if width == 0 then [] else [n % 256] + LittleEndian(n / 256, width - 1)
  }

  function FromBigEndian(b: bytes): nat {
    if b == [] then 0 else 256 * FromBigEndian(b[..|b| - 1]) + b[|b| - 1]
  }

  function FromLittleEndian(b: bytes): nat {
    if b == [] then 0 else b[0] + 256 * FromLittleEndian(b[1..])
  }

  function Power(width: nat): nat {
    if width == 0 then 1 else 256 * Power(width - 1)
  }

  lemma {:induction false} BigEndianRoundTrip(n: nat, width: nat)
    ensures FromBigEndian(BigEndian(n, width)) == n <==> n < Power(width)
    ensures FromBigEndian(BigEndian(n, width)) < Power(width)
  {
    if width > 0 {
      var b := BigEndian(n, width);
      assert b[..|b| - 1] == BigEndian(n / 256, width - 1);
      BigEndianRoundTrip(n / 256, width - 1);
    }
  }

  lemma {:induction false} LittleEndianRoundTrip(n: nat, width: nat)
    requires n < Power(width)
    ensures FromLittleEndian(LittleEndian(n, width)) == n
  {
    if width > 0 {
      assert LittleEndian(n, width)[1..] == LittleEndian(n / 256, width - 1);
      LittleEndianRoundTrip(n / 256, width - 1);
    }
  }

  lemma Powers()
    ensures Power(4) == 0x1_0000_0000 && Power(8) == 0x1_0000_0000_0000_0000
  {
  }

  // ---- the order of the sorts ----

  /** Byte-wise order, as `str` compares. */
  predicate Before(a: bytes, b: bytes) {
    b != [] && (a == [] || a[0] < b[0] || (a[0] == b[0] && Before(a[1..], b[1..])))
  }

  type Key = seq<bytes>

  function KeyOf(r: Record): Key {
    match r
    case Named(name, _) => [name]
    case Entry(dataset, operation, _) => [dataset, operation]
  }

  predicate KeyBefore(a: Key, b: Key) {
    b != [] && (a == [] || Before(a[0], b[0]) || (a[0] == b[0] && KeyBefore(a[1..], b[1..])))
  }

  lemma {:induction false} BeforeIsTotal(a: bytes, b: bytes)
    ensures Before(a, b) || Before(b, a) || a == b
    ensures !(Before(a, b) && Before(b, a)) && !Before(a, a)
  {
    if a != [] {
      BeforeIsTotal(a[1..], a[1..]);
    }
    if a != [] && b != [] {
      BeforeIsTotal(a[1..], b[1..]);
      assert a == [a[0]] + a[1..] && b == [b[0]] + b[1..];
    }
  }

  lemma {:induction false} BeforeIsTransitive(a: bytes, b: bytes, c: bytes)
    requires Before(a, b) && Before(b, c)
    ensures Before(a, c)
  {
    if a != [] && a[0] == b[0] && b[0] == c[0] {
      BeforeIsTransitive(a[1..], b[1..], c[1..]);
    }
  }

  lemma {:induction false} KeyBeforeIsTotal(a: Key, b: Key)
    ensures KeyBefore(a, b) || KeyBefore(b, a) || a == b
    ensures !(KeyBefore(a, b) && KeyBefore(b, a)) && !KeyBefore(a, a)
    decreases |a|
  {
    if a != [] {
      BeforeIsTotal(a[0], a[0]);
      KeyBeforeIsTotal(a[1..], a[1..]);
    }
    if a != [] && b != [] {
      BeforeIsTotal(a[0], b[0]);
      KeyBeforeIsTotal(a[1..], b[1..]);
      assert a == [a[0]] + a[1..] && b == [b[0]] + b[1..];
    }
  }

  lemma {:induction false} KeyBeforeIsTransitive(a: Key, b: Key, c: Key)
    requires KeyBefore(a, b) && KeyBefore(b, c)
    ensures KeyBefore(a, c)
    decreases |a|
  {
    if a != [] {
      BeforeIsTotal(b[0], b[0]);
      if a[0] == b[0] && b[0] == c[0] {
        KeyBeforeIsTransitive(a[1..], b[1..], c[1..]);
      } else if a[0] != b[0] && b[0] != c[0] {
        BeforeIsTransitive(a[0], b[0], c[0]);
      }
    }
  }

  predicate Sorted(rs: seq<Record>) {
    forall i, j :: 0 <= i < j < |rs| ==> !KeyBefore(KeyOf(rs[j]), KeyOf(rs[i]))
  }

  /** The records of one key, in order. */
  function WithKey(rs: seq<Record>, k: Key): (out: seq<Record>)
    ensures forall r :: r in out <==> r in rs && KeyOf(r) == k
  {
    if rs == [] then []
    else (if KeyOf(rs[0]) == k then [rs[0]] else []) + WithKey(rs[1..], k)
  }

  function Insert(r: Record, rs: seq<Record>): (out: seq<Record>)
    ensures multiset(out) == multiset(rs) + multiset{r}
  {
    if rs == [] || !KeyBefore(KeyOf(rs[0]), KeyOf(r)) then [r] + rs
    else
      assert rs == [rs[0]] + rs[1..];
      [rs[0]] + Insert(r, rs[1..])
  }

  /** A stable sort by key. `SortIsTheOnlyStableSort` says that no other is possible. */
  function Sort(rs: seq<Record>): (out: seq<Record>)
    ensures multiset(out) == multiset(rs)
    ensures |out| == |rs|
    ensures forall r | r in out :: r in rs
  {
    if rs == [] then []
    else
      assert rs == [rs[0]] + rs[1..];
      var out := Insert(rs[0], Sort(rs[1..]));
      MultisetSize(out, rs);
      MultisetMembers(out, rs);
      out
  }

  lemma MultisetSize(a: seq<Record>, b: seq<Record>)
    requires multiset(a) == multiset(b)
    ensures |a| == |b|
  {
    assert |a| == |multiset(a)| && |b| == |multiset(b)|;
  }

  lemma MultisetMembers(a: seq<Record>, b: seq<Record>)
    requires multiset(a) == multiset(b)
    ensures forall r | r in a :: r in b
  {
    forall r | r in a ensures r in b {
      assert r in multiset(a);
    }
  }

  lemma {:induction false} InsertKeepsSorted(r: Record, rs: seq<Record>)
    requires Sorted(rs)
    ensures Sorted(Insert(r, rs))
  {
    if rs != [] && KeyBefore(KeyOf(rs[0]), KeyOf(r)) {
      var tail := Insert(r, rs[1..]);
      InsertKeepsSorted(r, rs[1..]);
      MultisetMembers(tail, rs[1..] + [r]);
      KeyBeforeIsTotal(KeyOf(rs[0]), KeyOf(r));
      forall j | 0 <= j < |tail| ensures !KeyBefore(KeyOf(tail[j]), KeyOf(rs[0])) {
        assert tail[j] in rs[1..] + [r];
      }
    } else {
      forall j | 0 <= j < |rs| ensures !KeyBefore(KeyOf(rs[j]), KeyOf(r)) {
        NotBeforeHead(r, rs, j);
      }
    }
  }

  lemma NotBeforeHead(r: Record, rs: seq<Record>, j: nat)
    requires Sorted(rs) && j < |rs| && !KeyBefore(KeyOf(rs[0]), KeyOf(r))
    ensures !KeyBefore(KeyOf(rs[j]), KeyOf(r))
  {
    KeyBeforeIsTotal(KeyOf(rs[0]), KeyOf(rs[j]));
    if KeyBefore(KeyOf(rs[j]), KeyOf(r)) && KeyBefore(KeyOf(rs[0]), KeyOf(rs[j])) {
      KeyBeforeIsTransitive(KeyOf(rs[0]), KeyOf(rs[j]), KeyOf(r));
    }
  }

  lemma Swap(a: seq<Record>, b: seq<Record>, rest: seq<Record>)
    requires a == [] || b == []
    ensures a + (b + rest) == b + (a + rest)
  {
    assert [] + rest == rest && [] + (a + rest) == a + rest && [] + (b + rest) == b + rest;
  }

  lemma {:induction false} InsertKeepsOrder(r: Record, rs: seq<Record>, k: Key)
    ensures WithKey(Insert(r, rs), k) == WithKey([r] + rs, k)
  {
    WithKeyCons(r, rs, k);
    if rs != [] && KeyBefore(KeyOf(rs[0]), KeyOf(r)) {
      var first, rest := rs[0], rs[1..];
      assert rs == [first] + rest;
      InsertKeepsOrder(r, rest, k);
      WithKeyCons(r, rest, k);
      WithKeyCons(first, rest, k);
      WithKeyCons(first, Insert(r, rest), k);
      KeyBeforeIsTotal(KeyOf(first), KeyOf(r));
      Swap(if KeyOf(first) == k then [first] else [], if KeyOf(r) == k then [r] else [], WithKey(rest, k));
    }
  }

  lemma WithKeyCons(r: Record, rs: seq<Record>, k: Key)
    ensures WithKey([r] + rs, k) == (if KeyOf(r) == k then [r] else []) + WithKey(rs, k)
  {
    assert ([r] + rs)[1..] == rs;
  }

  /** Sorted by key, and records of equal key keep their order. */
  lemma {:induction false} SortIsStable(rs: seq<Record>)
    ensures Sorted(Sort(rs)) && forall k :: WithKey(Sort(rs), k) == WithKey(rs, k)
  {
    if rs != [] {
      SortIsStable(rs[1..]);
      InsertKeepsSorted(rs[0], Sort(rs[1..]));
      forall k ensures WithKey(Sort(rs), k) == WithKey(rs, k) {
        InsertKeepsOrder(rs[0], Sort(rs[1..]), k);
        WithKeyCons(rs[0], Sort(rs[1..]), k);
      }
    }
  }

  /** Key by key, the same records in the same order. */
  ghost predicate SameByKey(a: seq<Record>, b: seq<Record>) {
    forall k :: WithKey(a, k) == WithKey(b, k)
  }

  lemma HeadIsLeast(a: seq<Record>, b: seq<Record>)
    requires Sorted(a) && SameByKey(a, b) && a != [] && b != []
    ensures !KeyBefore(KeyOf(b[0]), KeyOf(a[0]))
  {
    assert b[0] in WithKey(b, KeyOf(b[0]));
    assert b[0] in WithKey(a, KeyOf(b[0]));
    var j :| 0 <= j < |a| && a[j] == b[0];
    KeyBeforeIsTotal(KeyOf(a[0]), KeyOf(a[0]));
  }

  lemma NonemptyByKey(a: seq<Record>, b: seq<Record>)
    requires SameByKey(a, b) && b != []
    ensures a != []
  {
    assert b[0] in WithKey(b, KeyOf(b[0]));
    assert b[0] in WithKey(a, KeyOf(b[0]));
  }

  lemma SameHeads(a: seq<Record>, b: seq<Record>)
    requires Sorted(a) && Sorted(b) && SameByKey(a, b) && a != [] && b != []
    ensures a[0] == b[0]
  {
    HeadIsLeast(a, b);
    HeadIsLeast(b, a);
    KeyBeforeIsTotal(KeyOf(a[0]), KeyOf(b[0]));
    var k0 := KeyOf(a[0]);
    assert WithKey(a, k0)[0] == a[0] && WithKey(b, k0)[0] == b[0];
    assert WithKey(a, k0) == WithKey(b, k0);
  }

  lemma {:induction false} SortedIsUnique(a: seq<Record>, b: seq<Record>)
    requires Sorted(a) && Sorted(b) && SameByKey(a, b)
    ensures a == b
  {
    if b != [] {
      NonemptyByKey(a, b);
    }
    if a != [] {
      NonemptyByKey(b, a);
      SameHeads(a, b);
      TailsByKey(a, b);
      SortedIsUnique(a[1..], b[1..]);
      assert a == [a[0]] + a[1..] && b == [b[0]] + b[1..];
    }
  }

  lemma TailsByKey(a: seq<Record>, b: seq<Record>)
    requires SameByKey(a, b) && a != [] && b != [] && a[0] == b[0]
    ensures SameByKey(a[1..], b[1..])
  {
    forall k ensures WithKey(a[1..], k) == WithKey(b[1..], k) {
      assert WithKey(a, k) == WithKey(b, k);
      var head := if KeyOf(a[0]) == k then [a[0]] else [];
      assert WithKey(a, k)[|head|..] == WithKey(a[1..], k);
      assert WithKey(b, k)[|head|..] == WithKey(b[1..], k);
    }
  }

  /** Whatever stable algorithm sorts the list, the result is `Sort`. */
  lemma SortIsTheOnlyStableSort(rs: seq<Record>, out: seq<Record>)
    ensures out == Sort(rs) <==> Sorted(out) && SameByKey(out, rs)
  {
    SortIsStable(rs);
    if Sorted(out) && SameByKey(out, rs) {
      SortedIsUnique(out, Sort(rs));
    }
  }

  /** Two lists sort alike exactly when, key by key, they list the same records in the same order. */
  lemma SortsAlikeIff(a: seq<Record>, b: seq<Record>)
    ensures Sort(a) == Sort(b) <==> SameByKey(a, b)
  {
    SortIsTheOnlyStableSort(a, Sort(b));
    SortIsStable(b);
  }

  predicate DistinctKeys(rs: seq<Record>) {
    forall i, j :: 0 <= i < j < |rs| ==> KeyOf(rs[i]) != KeyOf(rs[j])
  }

  lemma {:induction false} WithKeyCounts(rs: seq<Record>, k: Key, r: Record)
    ensures multiset(WithKey(rs, k))[r] == if KeyOf(r) == k then multiset(rs)[r] else 0
  {
    if rs != [] {
      WithKeyCounts(rs[1..], k, r);
      assert rs == [rs[0]] + rs[1..];
    }
  }

  lemma {:induction false} DistinctIsSingle(rs: seq<Record>, k: Key)
    requires DistinctKeys(rs)
    ensures |WithKey(rs, k)| <= 1
  {
    if rs != [] {
      DistinctIsSingle(rs[1..], k);
      if KeyOf(rs[0]) == k && WithKey(rs[1..], k) != [] {
        assert WithKey(rs[1..], k)[0] in rs[1..];
      }
    }
  }

  lemma SingletonMultisets(a: seq<Record>, b: seq<Record>)
    requires multiset(a) == multiset(b) && |a| <= 1
    ensures a == b
  {
    MultisetSize(a, b);
    if |a| == 1 {
      assert b[0] in multiset(b);
      assert b[0] in multiset(a);
    }
  }

  lemma PermutationByKey(a: seq<Record>, b: seq<Record>)
    requires multiset(a) == multiset(b) && DistinctKeys(a)
    ensures SameByKey(a, b)
  {
    forall k ensures WithKey(a, k) == WithKey(b, k) {
      forall r ensures multiset(WithKey(a, k))[r] == multiset(WithKey(b, k))[r] {
        WithKeyCounts(a, k, r);
        WithKeyCounts(b, k, r);
      }
      DistinctIsSingle(a, k);
      SingletonMultisets(WithKey(a, k), WithKey(b, k));
    }
  }

  // ---- the preimage ----

  /** `hash_field`: a four-byte big-endian length, then the bytes. */
  function Field(b: bytes): bytes {
    BigEndian(|b|, 4) + b
  }

  function RecordBytes(r: Record): bytes {
    match r
    case Named(name, content) => Field(name) + Field(content)
    case Entry(dataset, operation, checkRef) => Field(dataset) + (Field(operation) + Field(checkRef))
  }

  function RecordsBytes(rs: seq<Record>): bytes {
    if rs == [] then [] else RecordBytes(rs[0]) + RecordsBytes(rs[1..])
  }

  function ListBytes(rs: seq<Record>): bytes {
    Field(BigEndian(|rs|, 4)) + RecordsBytes(rs)
  }

  function ManifestBytes(m: Manifest): bytes {
    Field(m.contractId) + (Field(LittleEndian(m.version, 8)) + Field(LittleEndian(m.compiledAt, 8)))
  }

  /** Everything that `canonical_digest` feeds to the hasher. */
  function Preimage(b: Bundle): bytes {
    ManifestBytes(b.manifest) +
    (ListBytes(Sort(b.wasm)) + (ListBytes(Sort(b.rego)) + (ListBytes(Sort(b.sql)) + ListBytes(Sort(b.resolution)))))
  }

  // ---- reading it back ----

  datatype Read<+T> = Read(value: T, rest: bytes)

  function ReadField(s: bytes): (r: Option<Read<bytes>>)
    ensures r.Some? ==> |r.value.rest| < |s|
  {
    if |s| < 4 then None
    else
      var n := FromBigEndian(s[..4]);
      if |s| - 4 < n then None else Some(Read(s[4..4 + n], s[4 + n..]))
  }

  function ReadNamed(s: bytes): Option<Read<Record>> {
    match ReadField(s)
    case None => None
    case Some(name) =>
      match ReadField(name.rest)
      case None => None
      case Some(content) => Some(Read(Named(name.value, content.value), content.rest))
  }

  function ReadEntry(s: bytes): Option<Read<Record>> {
    match ReadField(s)
    case None => None
    case Some(dataset) =>
      match ReadField(dataset.rest)
      case None => None
      case Some(operation) =>
        match ReadField(operation.rest)
        case None => None
        case Some(checkRef) =>
          Some(Read(Entry(dataset.value, operation.value, checkRef.value), checkRef.rest))
  }

  function ReadRecords(entries: bool, count: nat, s: bytes): Option<Read<seq<Record>>>
    decreases count
  {
    if count == 0 then Some(Read([], s))
    else
      match if entries then ReadEntry(s) else ReadNamed(s)
      case None => None
      case Some(first) =>
        match ReadRecords(entries, count - 1, first.rest)
        case None => None
        case Some(others) => Some(Read([first.value] + others.value, others.rest))
  }

  function ReadList(entries: bool, s: bytes): Option<Read<seq<Record>>> {
    match ReadField(s)
    case None => None
    case Some(count) => ReadRecords(entries, FromBigEndian(count.value), count.rest)
  }

  datatype Content = Content(manifest: Manifest, wasm: seq<Record>, rego: seq<Record>, sql: seq<Record>, resolution: seq<Record>)

  function ReadLists(m: Manifest, s: bytes): Option<Content> {
    match ReadList(false, s)
    case None => None
    case Some(wasm) =>
      match ReadList(false, wasm.rest)
      case None => None
      case Some(rego) =>
        match ReadList(false, rego.rest)
        case None => None
        case Some(sql) =>
          match ReadList(true, sql.rest)
          case None => None
          case Some(resolution) =>
            if resolution.rest == []
            then Some(Content(m, wasm.value, rego.value, sql.value, resolution.value))
            else None
  }

  function ReadManifest(s: bytes): Option<Read<Manifest>> {
    match ReadField(s)
    case None => None
    case Some(id) =>
      match ReadField(id.rest)
      case None => None
      case Some(version) =>
        match ReadField(version.rest)
        case None => None
        case Some(compiledAt) =>
          var v, c := FromLittleEndian(version.value), FromLittleEndian(compiledAt.value);
          if v < 0x1_0000_0000_0000_0000 && c < 0x1_0000_0000_0000_0000
          then Some(Read(Manifest(id.value, v, c), compiledAt.rest))
          else None
  }

  function Decode(s: bytes): Option<Content> {
    match ReadManifest(s)
    case None => None
    case Some(m) => ReadLists(m.value, m.rest)
  }

  /** What the digest covers: the manifest and the four sorted lists. */
  function Canonical(b: Bundle): Content {
    Content(b.manifest, Sort(b.wasm), Sort(b.rego), Sort(b.sql), Sort(b.resolution))
  }

  // ---- round trip ----

  predicate Short(b: bytes) {
    |b| < 0x1_0000_0000
  }

  predicate ShortRecord(r: Record) {
    match r
    case Named(name, content) => Short(name) && Short(content)
    case Entry(dataset, operation, checkRef) => Short(dataset) && Short(operation) && Short(checkRef)
  }

  predicate ShortList(rs: seq<Record>) {
    |rs| < 0x1_0000_0000 && forall r | r in rs :: ShortRecord(r)
  }

  /** Every length fits its 32-bit prefix. */
  predicate Encodable(b: Bundle) {
    Short(b.manifest.contractId) && ShortList(b.wasm) && ShortList(b.rego) && ShortList(b.sql) && ShortList(b.resolution)
  }

  lemma FieldRoundTrip(b: bytes, rest: bytes)
    requires Short(b)
    ensures ReadField(Field(b) + rest) == Some(Read(b, rest))
  {
    var s := Field(b) + rest;
    assert s[..4] == BigEndian(|b|, 4);
    Powers();
    BigEndianRoundTrip(|b|, 4);
    assert s[4..4 + |b|] == b && s[4 + |b|..] == rest;
  }

  lemma RecordRoundTrip(r: Record, rest: bytes)
    requires ShortRecord(r)
    ensures (if r.Entry? then ReadEntry(RecordBytes(r) + rest) else ReadNamed(RecordBytes(r) + rest)) == Some(Read(r, rest))
  {
    match r
    case Named(name, content) =>
      Reassociate(Field(name), Field(content), rest);
      FieldRoundTrip(name, Field(content) + rest);
      FieldRoundTrip(content, rest);
    case Entry(dataset, operation, checkRef) =>
      var tail := Field(operation) + Field(checkRef);
      Reassociate(Field(dataset), tail, rest);
      Reassociate(Field(operation), Field(checkRef), rest);
      FieldRoundTrip(dataset, tail + rest);
      FieldRoundTrip(operation, Field(checkRef) + rest);
      FieldRoundTrip(checkRef, rest);
  }

  lemma OneMoreRecord(entries: bool, r: Record, count: nat, s: bytes, tail: bytes)
    requires (if entries then ReadEntry(s) else ReadNamed(s)) == Some(Read(r, tail)) && ReadRecords(entries, count, tail).Some?
    ensures var others := ReadRecords(entries, count, tail).value;
            ReadRecords(entries, count + 1, s) == Some(Read([r] + others.value, others.rest))
  {
  }

  lemma {:induction false} RecordsRoundTrip(entries: bool, rs: seq<Record>, rest: bytes)
    requires forall r | r in rs :: ShortRecord(r) && r.Entry? == entries
    ensures ReadRecords(entries, |rs|, RecordsBytes(rs) + rest) == Some(Read(rs, rest))
    decreases |rs|
  {
    if rs == [] {
      assert [] + rest == rest;
    } else {
      assert rs[0] in rs;
      var r, others := rs[0], rs[1..];
      var tail := RecordsBytes(others) + rest;
      Reassociate(RecordBytes(r), RecordsBytes(others), rest);
      RecordRoundTrip(r, tail);
      RecordsRoundTrip(entries, others, rest);
      OneMoreRecord(entries, r, |others|, RecordBytes(r) + tail, tail);
      assert [r] + others == rs;
    }
  }

  lemma ListRoundTrip(entries: bool, rs: seq<Record>, rest: bytes)
    requires ShortList(rs) && forall r | r in rs :: r.Entry? == entries
    ensures ReadList(entries, ListBytes(rs) + rest) == Some(Read(rs, rest))
  {
    var count := BigEndian(|rs|, 4);
    Reassociate(Field(count), RecordsBytes(rs), rest);
    FieldRoundTrip(count, RecordsBytes(rs) + rest);
    Powers();
    BigEndianRoundTrip(|rs|, 4);
    RecordsRoundTrip(entries, rs, rest);
  }

  lemma ManifestRoundTrip(m: Manifest, rest: bytes)
    requires Short(m.contractId)
    ensures ReadManifest(ManifestBytes(m) + rest) == Some(Read(m, rest))
  {
    var v, c := LittleEndian(m.version, 8), LittleEndian(m.compiledAt, 8);
    Reassociate(Field(m.contractId), Field(v) + Field(c), rest);
    Reassociate(Field(v), Field(c), rest);
    FieldRoundTrip(m.contractId, (Field(v) + Field(c)) + rest);
    FieldRoundTrip(v, Field(c) + rest);
    FieldRoundTrip(c, rest);
    Powers();
    LittleEndianRoundTrip(m.version, 8);
    LittleEndianRoundTrip(m.compiledAt, 8);
  }

  lemma ListsRoundTrip(
      m: Manifest, wasm: seq<Record>, rego: seq<Record>, sql: seq<Record>, resolution: seq<Record>)
    requires ShortList(wasm) && ShortList(rego) && ShortList(sql) && ShortList(resolution)
    requires (forall r | r in wasm :: r.Named?) && (forall r | r in rego :: r.Named?)
    requires (forall r | r in sql :: r.Named?) && (forall r | r in resolution :: r.Entry?)
    ensures ReadLists(m, ListBytes(wasm) + (ListBytes(rego) + (ListBytes(sql) + ListBytes(resolution))))
            == Some(Content(m, wasm, rego, sql, resolution))
  {
    var last := ListBytes(resolution);
    ListRoundTrip(false, wasm, ListBytes(rego) + (ListBytes(sql) + last));
    ListRoundTrip(false, rego, ListBytes(sql) + last);
    ListRoundTrip(false, sql, last);
    ListRoundTrip(true, resolution, []);
    assert last + [] == last;
  }

  /** The preimage is uniquely decodable. */
  lemma DecodePreimage(b: Bundle)
    requires Encodable(b)
    ensures Decode(Preimage(b)) == Some(Canonical(b))
  {
    var c := Canonical(b);
    ManifestRoundTrip(c.manifest, ListBytes(c.wasm) + (ListBytes(c.rego) + (ListBytes(c.sql) + ListBytes(c.resolution))));
    ListsRoundTrip(c.manifest, c.wasm, c.rego, c.sql, c.resolution);
  }

  /** Same manifest and, in each list, the same records in the same order per key. */
  ghost predicate SameContent(a: Bundle, b: Bundle) {
    && a.manifest == b.manifest
    && SameByKey(a.wasm, b.wasm) && SameByKey(a.rego, b.rego)
    && SameByKey(a.sql, b.sql) && SameByKey(a.resolution, b.resolution)
  }

  /** Equal preimages are exactly equal manifests and lists that differ only in the order of keys. */
  lemma PreimagesEqualIff(a: Bundle, b: Bundle)
    requires Encodable(a) && Encodable(b)
    ensures Preimage(a) == Preimage(b) <==> SameContent(a, b)
  {
    DecodePreimage(a);
    DecodePreimage(b);
    SortsAlikeIff(a.wasm, b.wasm);
    SortsAlikeIff(a.rego, b.rego);
    SortsAlikeIff(a.sql, b.sql);
    SortsAlikeIff(a.resolution, b.resolution);
  }

  ghost predicate Reordered(a: Bundle, b: Bundle) {
    && a.manifest == b.manifest
    && multiset(a.wasm) == multiset(b.wasm) && multiset(a.rego) == multiset(b.rego)
    && multiset(a.sql) == multiset(b.sql) && multiset(a.resolution) == multiset(b.resolution)
  }

  /** With distinct sort keys, every reordering of the lists leaves the preimage unchanged. */
  lemma ReorderingKeepsPreimage(a: Bundle, b: Bundle)
    requires Reordered(a, b)
    requires DistinctKeys(a.wasm) && DistinctKeys(a.rego) && DistinctKeys(a.sql) && DistinctKeys(a.resolution)
    ensures Preimage(a) == Preimage(b)
  {
    PermutationByKey(a.wasm, b.wasm);
    PermutationByKey(a.rego, b.rego);
    PermutationByKey(a.sql, b.sql);
    PermutationByKey(a.resolution, b.resolution);
    SortsAlikeIff(a.wasm, b.wasm);
    SortsAlikeIff(a.rego, b.rego);
    SortsAlikeIff(a.sql, b.sql);
    SortsAlikeIff(a.resolution, b.resolution);
  }

  lemma OrderShows(one: Record, two: Record)
    requires KeyOf(one) == KeyOf(two) && one != two
    ensures !SameByKey([one, two], [two, one])
  {
    var k := KeyOf(one);
    assert WithKey([one, two], k)[0] == one && WithKey([two, one], k)[0] == two;
    assert WithKey([one, two], k) != WithKey([two, one], k);
  }

  /** With a repeated name it does not: two modules of one name cannot swap places unnoticed. */
  lemma RepeatedNameFixesOrder(m: Manifest, one: NamedItem, two: NamedItem)
    requires Short(m.contractId) && ShortRecord(one) && ShortRecord(two)
    requires one.name == two.name && one != two
    ensures Preimage(Bundle(m, [one, two], [], [], [])) != Preimage(Bundle(m, [two, one], [], [], []))
  {
    PreimagesEqualIff(Bundle(m, [one, two], [], [], []), Bundle(m, [two, one], [], [], []));
    OrderShows(one, two);
  }

  function Zeros(n: nat): (z: bytes)
    ensures |z| == n
  {
    seq(n, i requires 0 <= i => 0)
  }

  lemma ZerosAppend(a: nat, b: nat)
    ensures Zeros(a) + Zeros(b) == Zeros(a + b)
  {
  }

  /**
   The 32-bit bound is needed: a length of 2^32 is written as zero, and a name of that many zero
   bytes with no content hashes like no name with that content.
   */
  lemma LongFieldsCollide()
    ensures var huge := Zeros(0x1_0000_0000);
            var a := Bundle(Manifest([], 0, 0), [Named(huge, [])], [], [], []);
            var b := Bundle(Manifest([], 0, 0), [Named([], huge)], [], [], []);
            Preimage(a) == Preimage(b) && !SameContent(a, b)
  {
    var n := 0x1_0000_0000;
    var huge := Zeros(n);
    var a := Bundle(Manifest([], 0, 0), [Named(huge, [])], [], [], []);
    var b := Bundle(Manifest([], 0, 0), [Named([], huge)], [], [], []);
    LengthWraps();
    FieldOfZeros(n);
    FieldOfZeros(0);
    assert Zeros(0) == [];
    ZerosAppend(4 + n, 4);
    ZerosAppend(4, 4 + n);
    assert Zeros(4 + n) + Zeros(4) == Zeros(4) + Zeros(4 + n);
    assert RecordBytes(a.wasm[0]) == RecordBytes(b.wasm[0]);
    SingleSort(a.wasm[0]);
    SingleSort(b.wasm[0]);
    SingleList(a.wasm[0]);
    SingleList(b.wasm[0]);
    assert huge != [];
    assert a.wasm[0] in WithKey(a.wasm, KeyOf(a.wasm[0]));
    assert a.wasm[0] !in WithKey(b.wasm, KeyOf(a.wasm[0]));
  }

  lemma LengthWraps()
    ensures BigEndian(0x1_0000_0000, 4) == Zeros(4) && BigEndian(0, 4) == Zeros(4)
  {
  }

  lemma FieldOfZeros(n: nat)
    requires BigEndian(n, 4) == Zeros(4)
    ensures Field(Zeros(n)) == Zeros(4 + n)
  {
  }

  lemma SingleSort(r: Record)
    ensures Sort([r]) == [r]
  {
  }

  lemma SingleList(r: Record)
    ensures ListBytes([r]) == Field(BigEndian(1, 4)) + RecordBytes(r)
  {
    assert RecordsBytes([r]) == RecordBytes(r) + [];
  }

  // ---- the hasher ----

  /** A streaming hasher, by the bytes it has been fed. */
  class Hasher {
    var fed: bytes

    constructor ()
      ensures fed == []
    {
      fed := [];
    }

    method Update(b: bytes)
      modifies this
      ensures fed == old(fed) + b
    {
      fed := fed + b;
    }
  }

  method HashField(h: Hasher, b: bytes)
    modifies h
    ensures h.fed == old(h.fed) + Field(b)
  {
    h.Update(BigEndian(|b|, 4));
    h.Update(b);
    Reassociate(old(h.fed), BigEndian(|b|, 4), b);
  }

  method HashRecord(h: Hasher, r: Record)
    modifies h
    ensures h.fed == old(h.fed) + RecordBytes(r)
  {
    ghost var was := h.fed;
    match r {
      case Named(name, content) =>
        HashField(h, name);
        HashField(h, content);
        Reassociate(was, Field(name), Field(content));
      case Entry(dataset, operation, checkRef) =>
        HashField(h, dataset);
        HashField(h, operation);
        HashField(h, checkRef);
        Reassociate(was + Field(dataset), Field(operation), Field(checkRef));
        Reassociate(was, Field(dataset), Field(operation) + Field(checkRef));
    }
  }

  method HashRecords(h: Hasher, rs: seq<Record>)
    modifies h
    ensures h.fed == old(h.fed) + RecordsBytes(rs)
  {
    ghost var goal := h.fed + RecordsBytes(rs);
    assert rs[0..] == rs;
    for i := 0 to |rs|
      invariant h.fed + RecordsBytes(rs[i..]) == goal
    {
      assert rs[i..][1..] == rs[i + 1..];
      Reassociate(h.fed, RecordBytes(rs[i]), RecordsBytes(rs[i + 1..]));
      HashRecord(h, rs[i]);
    }
    assert h.fed + [] == h.fed;
  }

  /** One of the four sections: sort, then the count, then every record in sorted order. */
  method HashList(h: Hasher, items: seq<Record>)
    modifies h
    ensures h.fed == old(h.fed) + ListBytes(Sort(items))
  {
    ghost var was := h.fed;
    var sorted := Sort(items);
    HashField(h, BigEndian(|sorted|, 4));
    HashRecords(h, sorted);
    Reassociate(was, Field(BigEndian(|sorted|, 4)), RecordsBytes(sorted));
  }

  lemma RightNested(m: bytes, a: bytes, b: bytes, c: bytes, d: bytes)
    ensures (((m + a) + b) + c) + d == m + (a + (b + (c + d)))
  {
    Reassociate(((m + a) + b), c, d);
    Reassociate(m + a, b, c + d);
    Reassociate(m, a, b + (c + d));
  }

  /** `canonical_digest` */
  method CanonicalDigest(crypto: Crypto, b: Bundle) returns (digest: bytes)
    ensures digest == crypto.sha256(Preimage(b))
  {
    var h := new Hasher();
    HashManifest(h, b.manifest);
    assert h.fed == ManifestBytes(b.manifest);
    HashList(h, b.wasm);
    HashList(h, b.rego);
    HashList(h, b.sql);
    HashList(h, b.resolution);
    RightNested(ManifestBytes(b.manifest), ListBytes(Sort(b.wasm)), ListBytes(Sort(b.rego)), ListBytes(Sort(b.sql)), ListBytes(Sort(b.resolution)));
    digest := crypto.sha256(h.fed);
  }

  method HashManifest(h: Hasher, m: Manifest)
    modifies h
    ensures h.fed == old(h.fed) + ManifestBytes(m)
  {
    ghost var was := h.fed;
    HashField(h, m.contractId);
    HashField(h, LittleEndian(m.version, 8));
    HashField(h, LittleEndian(m.compiledAt, 8));
    Reassociate(was + Field(m.contractId), Field(LittleEndian(m.version, 8)), Field(LittleEndian(m.compiledAt, 8)));
    Reassociate(was, Field(m.contractId), Field(LittleEndian(m.version, 8)) + Field(LittleEndian(m.compiledAt, 8)));
  }

  // ---- signing ----

  /** `signs(payload, der)`: the key accepts this DER signature over this payload. */
  datatype Crypto = Crypto(sha256: bytes -> bytes, unhex: string -> Option<bytes>, isDer: bytes -> bool, signs: (bytes, bytes) -> bool)

  datatype Metadata = Metadata(bundleHashHex: string, signedAt: u64, keyGeneration: u32)

  datatype SignedFile = SignedFile(bundle: Bundle, signatureHex: string, metadata: Metadata)

  datatype VerifyError = BadHashHex | DigestMismatch | BadSignatureHex | BadDer | BadSignature

  /** The ASCII codes of the domain tag "t03:bundle-signing-payload:v1". */
  const TAG: bytes := [116, 48, 51, 58, 98, 117, 110, 100, 108, 101, 45, 115, 105, 103, 110, 105, 110, 103, 45, 112, 97, 121, 108, 111, 97, 100, 58, 118, 49]

  lemma TagIsSpelled()
    ensures |TAG| == |"t03:bundle-signing-payload:v1"|
    ensures forall i :: 0 <= i < |TAG| ==> TAG[i] as char == "t03:bundle-signing-payload:v1"[i]
  {
  }

  function SigningPreimage(hash: bytes, generation: u32, signedAt: u64, metadataHash: bytes): bytes {
    Field(TAG) + (Field(hash) + (Field(LittleEndian(generation, 4)) + (Field(LittleEndian(signedAt, 8)) + Field(metadataHash))))
  }

  /** `canonical_signing_payload` */
  method CanonicalSigningPayload(
      crypto: Crypto, hash: bytes, generation: u32, signedAt: u64, metadataHash: bytes)
    returns (payload: bytes)
    ensures payload == crypto.sha256(SigningPreimage(hash, generation, signedAt, metadataHash))
  {
    var h := new Hasher();
    HashField(h, TAG);
    assert h.fed == Field(TAG);
    HashField(h, hash);
    HashField(h, LittleEndian(generation, 4));
    HashField(h, LittleEndian(signedAt, 8));
    HashField(h, metadataHash);
    RightNested(Field(TAG), Field(hash), Field(LittleEndian(generation, 4)), Field(LittleEndian(signedAt, 8)), Field(metadataHash));
    payload := crypto.sha256(h.fed);
  }

  /** The bytes whose hash is signed. */
  function SignedBytes(crypto: Crypto, f: SignedFile): bytes {
    var digest := crypto.sha256(Preimage(f.bundle));
    SigningPreimage(digest, f.metadata.keyGeneration, f.metadata.signedAt, digest)
  }

  /** The verdict of `verify`, as a function of the file. */
  function Verdict(crypto: Crypto, f: SignedFile): Option<VerifyError> {
    var digest := crypto.sha256(Preimage(f.bundle));
    match crypto.unhex(f.metadata.bundleHashHex)
    case None => Some(BadHashHex)
    case Some(recorded) =>
      if digest != recorded then Some(DigestMismatch)
      else
        match crypto.unhex(f.signatureHex)
        case None => Some(BadSignatureHex)
        case Some(der) =>
          if !crypto.isDer(der) then Some(BadDer)
          else if crypto.signs(crypto.sha256(SignedBytes(crypto, f)), der) then None
          else Some(BadSignature)
  }

  /** The recorded hash is the hash of the content. */
  predicate HashMatches(crypto: Crypto, f: SignedFile) {
    crypto.unhex(f.metadata.bundleHashHex) == Some(crypto.sha256(Preimage(f.bundle)))
  }

  /** The key accepts the signature for the content, its key generation and its time of signing. */
  predicate Accepts(crypto: Crypto, f: SignedFile, der: bytes) {
    crypto.isDer(der) && crypto.signs(crypto.sha256(SignedBytes(crypto, f)), der)
  }

  /** What a verdict means: exactly when a file passes, and exactly what each error says. */
  lemma VerdictIff(crypto: Crypto, f: SignedFile)
    ensures var v, recorded, signature := Verdict(crypto, f), crypto.unhex(f.metadata.bundleHashHex), crypto.unhex(f.signatureHex);
            && (v == None <==> HashMatches(crypto, f) && signature.Some? && Accepts(crypto, f, signature.value))
            && (v == Some(BadHashHex) <==> recorded == None)
            && (v == Some(DigestMismatch) <==> recorded.Some? && recorded.value != crypto.sha256(Preimage(f.bundle)))
            && (v == Some(BadSignatureHex) <==> HashMatches(crypto, f) && signature == None)
            && (v == Some(BadDer) <==> HashMatches(crypto, f) && signature.Some? && !crypto.isDer(signature.value))
            && (v == Some(BadSignature) <==>
                  HashMatches(crypto, f) && signature.Some? && crypto.isDer(signature.value) && !Accepts(crypto, f, signature.value))
  {
  }

  /** `SignedBundleFile::verify` */
  method Verify(crypto: Crypto, f: SignedFile) returns (error: Option<VerifyError>)
    ensures error == Verdict(crypto, f)
    ensures error == None <==>
              && crypto.unhex(f.metadata.bundleHashHex) == Some(crypto.sha256(Preimage(f.bundle)))
              && crypto.unhex(f.signatureHex).Some? && crypto.isDer(crypto.unhex(f.signatureHex).value)
              && crypto.signs(crypto.sha256(SignedBytes(crypto, f)), crypto.unhex(f.signatureHex).value)
  {
    VerdictIff(crypto, f);
    var recomputed := CanonicalDigest(crypto, f.bundle);
    var recorded := crypto.unhex(f.metadata.bundleHashHex);
    if recorded.None? {
      return Some(BadHashHex);
    }
    if recomputed != recorded.value {
      return Some(DigestMismatch);
    }
    var payload := CanonicalSigningPayload(crypto, recomputed, f.metadata.keyGeneration, f.metadata.signedAt, recorded.value);
    var der := crypto.unhex(f.signatureHex);
    if der.None? {
      return Some(BadSignatureHex);
    }
    if !crypto.isDer(der.value) {
      return Some(BadDer);
    }
    return if crypto.signs(payload, der.value) then None else Some(BadSignature);
  }

  lemma FieldsInjective(a: bytes, b: bytes, s: bytes, t: bytes)
    requires Short(a) && Short(b) && Field(a) + s == Field(b) + t
    ensures a == b && s == t
  {
    FieldRoundTrip(a, s);
    FieldRoundTrip(b, t);
  }

  lemma LittleEndianInjective(m: nat, n: nat, width: nat)
    requires m < Power(width) && n < Power(width) && LittleEndian(m, width) == LittleEndian(n, width)
    ensures m == n
  {
    LittleEndianRoundTrip(m, width);
    LittleEndianRoundTrip(n, width);
  }

  /** The signed bytes determine the hash, the key generation and the time of signing. */
  lemma SigningPreimageInjective(h1: bytes, g1: u32, t1: u64, m1: bytes, h2: bytes, g2: u32, t2: u64, m2: bytes)
    requires Short(h1) && Short(h2) && Short(m1) && Short(m2)
    requires SigningPreimage(h1, g1, t1, m1) == SigningPreimage(h2, g2, t2, m2)
    ensures h1 == h2 && g1 == g2 && t1 == t2 && m1 == m2
  {
    var gen1, gen2, at1, at2 := LittleEndian(g1, 4), LittleEndian(g2, 4), LittleEndian(t1, 8), LittleEndian(t2, 8);
    FieldsInjective(TAG, TAG, Field(h1) + (Field(gen1) + (Field(at1) + Field(m1))), Field(h2) + (Field(gen2) + (Field(at2) + Field(m2))));
    FieldsInjective(h1, h2, Field(gen1) + (Field(at1) + Field(m1)), Field(gen2) + (Field(at2) + Field(m2)));
    FieldsInjective(gen1, gen2, Field(at1) + Field(m1), Field(at2) + Field(m2));
    FieldsInjective(at1, at2, Field(m1), Field(m2));
    assert Field(m1) + [] == Field(m1) && Field(m2) + [] == Field(m2);
    FieldsInjective(m1, m2, [], []);
    Powers();
    LittleEndianInjective(g1, g2, 4);
    LittleEndianInjective(t1, t2, 8);
  }

  ghost predicate Collision(crypto: Crypto, x: bytes, y: bytes) {
    x != y && crypto.sha256(x) == crypto.sha256(y)
  }

  /**
   One signature covers one content: two verified files with the same signed payload agree on
   key generation, time, manifest and the four lists up to the order of keys, unless one of two
   named pairs of byte strings collides under SHA-256.
   */
  lemma SamePayloadSameContent(crypto: Crypto, f: SignedFile, g: SignedFile)
    requires Encodable(f.bundle) && Encodable(g.bundle)
    requires Short(crypto.sha256(Preimage(f.bundle))) && Short(crypto.sha256(Preimage(g.bundle)))
    requires Verdict(crypto, f).None? && Verdict(crypto, g).None?
    requires crypto.sha256(SignedBytes(crypto, f)) == crypto.sha256(SignedBytes(crypto, g))
    ensures || Collision(crypto, SignedBytes(crypto, f), SignedBytes(crypto, g))
            || Collision(crypto, Preimage(f.bundle), Preimage(g.bundle))
            || (&& SameContent(f.bundle, g.bundle)
                && f.metadata.keyGeneration == g.metadata.keyGeneration && f.metadata.signedAt == g.metadata.signedAt
                && crypto.unhex(f.metadata.bundleHashHex) == crypto.unhex(g.metadata.bundleHashHex))
  {
    if SignedBytes(crypto, f) == SignedBytes(crypto, g) {
      var df, dg := crypto.sha256(Preimage(f.bundle)), crypto.sha256(Preimage(g.bundle));
      SigningPreimageInjective(df, f.metadata.keyGeneration, f.metadata.signedAt, df,
                               dg, g.metadata.keyGeneration, g.metadata.signedAt, dg);
      PreimagesEqualIff(f.bundle, g.bundle);
    }
  }

  lemma VerdictByDigest(crypto: Crypto, f: SignedFile, other: Bundle)
    requires Verdict(crypto, f).None?
    ensures Verdict(crypto, f.(bundle := other)) ==
            if crypto.sha256(Preimage(f.bundle)) == crypto.sha256(Preimage(other)) then None else Some(DigestMismatch)
  {
  }

  /** Putting other content under a verified file's signature is refused, or is a collision. */
  lemma SubstitutionIsRefused(crypto: Crypto, f: SignedFile, other: Bundle)
    requires Encodable(f.bundle) && Encodable(other) && Verdict(crypto, f).None?
    ensures Verdict(crypto, f.(bundle := other)) ==
            if SameContent(f.bundle, other) || Collision(crypto, Preimage(f.bundle), Preimage(other)) then None
            else Some(DigestMismatch)
  {
    VerdictByDigest(crypto, f, other);
    PreimagesEqualIff(f.bundle, other);
  }
}
