/**
 The per-tenant result cache of src/query_cache.rs.

 `State` and `Step` describe the cache as a value that each critical section of the
 mutex replaces; `Cache` is the object itself, whose methods are proved against them.
 Time is an input: every operation that reads the clock takes the reading as `now`.
 */
module QueryCache {
  import opened Prelude

  /** An Arrow batch, as far as the cache looks at it: columns, each a list of buffers. */
  datatype RecordBatch = RecordBatch(columns: seq<seq<seq<byte>>>)

  datatype Answer = Answer(batches: seq<RecordBatch>, jws: string)

  datatype Key = Key(tenant: string, digest: seq<byte>)

  datatype Entry = Entry(answer: Answer, byteSize: nat, insertedAt: nat)

  datatype Slot = Slot(key: Key, entry: Entry)

  datatype Config = Config(maxEntries: nat, maxBytes: nat, ttl: nat)

  /**
   `slots` is the LRU list, most recently used first. `displaced` is a history variable:
   the bytes of entries that `lru.put` replaced or pushed out since the last full clear.
   */
  datatype State = State(slots: seq<Slot>, totalBytes: nat, displaced: nat)

  const EMPTY := State([], 0, 0)

  datatype Op =
    | Get(key: Key, now: nat)
    | Put(key: Key, answer: Answer, now: nat)
    | InvalidateTenant(tenant: string)
    | InvalidateAll

  // ---- Sizes ----

  function BufferBytes(buffers: seq<seq<byte>>): nat {
    if buffers == [] then 0 else |buffers[0]| + BufferBytes(buffers[1..])
  }

  function ColumnBytes(columns: seq<seq<seq<byte>>>): nat {
    if columns == [] then 0 else BufferBytes(columns[0]) + ColumnBytes(columns[1..])
  }

  function EstimateBytes(batches: seq<RecordBatch>): nat {
    if batches == [] then 0 else ColumnBytes(batches[0].columns) + EstimateBytes(batches[1..])
  }

  function LiveBytes(slots: seq<Slot>): nat {
    if slots == [] then 0 else slots[0].entry.byteSize + LiveBytes(slots[1..])
  }

  function SaturatingSub(a: nat, b: nat): nat {
    if b <= a then a - b else 0
  }

  /** `Instant::elapsed`, which is zero for an instant in the future. */
  function Elapsed(now: nat, since: nat): nat {
    SaturatingSub(now, since)
  }

  // ---- The LRU list ----

  function Capacity(config: Config): nat {
    if config.maxEntries == 0 then 1 else config.maxEntries
  }

  /** The position of the first slot with this key, or the length of the list. */
  function Find(slots: seq<Slot>, key: Key): (i: nat)
    ensures i <= |slots|
    ensures i < |slots| ==> slots[i].key == key
    ensures forall j :: 0 <= j < i ==> slots[j].key != key
  {
    if slots == [] || slots[0].key == key then 0 else 1 + Find(slots[1..], key)
  }

  function Lookup(slots: seq<Slot>, key: Key): Option<Entry> {
    var i := Find(slots, key);
    if i < |slots| then Some(slots[i].entry) else None
  }

  function Without(slots: seq<Slot>, key: Key): seq<Slot> {
    var i := Find(slots, key);
    if i < |slots| then slots[..i] + slots[i + 1..] else slots
  }

  /** `LruCache::put`: replace in place of an equal key, else push out the oldest when full. */
  function LruPut(slots: seq<Slot>, capacity: nat, slot: Slot): seq<Slot>
    requires capacity > 0
  {
    if Lookup(slots, slot.key).Some? then [slot] + Without(slots, slot.key)
    else if |slots| >= capacity then [slot] + slots[..|slots| - 1]
    else [slot] + slots
  }

  /** The bytes of the entry that `LruPut` makes disappear without telling anyone. */
  function DisplacedBy(slots: seq<Slot>, capacity: nat, key: Key): nat
    requires capacity > 0
  {
    match Lookup(slots, key)
    case Some(entry) => entry.byteSize
    case None => if |slots| >= capacity then slots[|slots| - 1].entry.byteSize else 0
  }

  /** The eviction loop of `put`: pop the oldest entry until `incoming` bytes fit. */
  function Evict(slots: seq<Slot>, total: nat, incoming: nat, maxBytes: nat): (seq<Slot>, nat) {
    if total + incoming > maxBytes && slots != [] then
      var last := |slots| - 1;
      Evict(slots[..last], SaturatingSub(total, slots[last].entry.byteSize), incoming, maxBytes)
    else
      (slots, total)
  }

  function OfTenant(slots: seq<Slot>, tenant: string): seq<Slot> {
    if slots == [] then []
    else if slots[0].key.tenant == tenant then [slots[0]] + OfTenant(slots[1..], tenant)
    else OfTenant(slots[1..], tenant)
  }

  function OfOthers(slots: seq<Slot>, tenant: string): seq<Slot> {
    if slots == [] then []
    else if slots[0].key.tenant == tenant then OfOthers(slots[1..], tenant)
    else [slots[0]] + OfOthers(slots[1..], tenant)
  }

  // ---- One critical section ----

  function GetStep(config: Config, s: State, key: Key, now: nat): (State, Option<Answer>) {
    match Lookup(s.slots, key)
    case None => (s, None)
    case Some(entry) =>
      if Elapsed(now, entry.insertedAt) > config.ttl then
        (s.(slots := Without(s.slots, key), totalBytes := SaturatingSub(s.totalBytes, entry.byteSize)), None)
      else
        (s.(slots := [Slot(key, entry)] + Without(s.slots, key)), Some(entry.answer))
  }

  function PutStep(config: Config, s: State, key: Key, answer: Answer, now: nat): State {
    var size := EstimateBytes(answer.batches);
    var (kept, total) := Evict(s.slots, s.totalBytes, size, config.maxBytes);
    State(
      LruPut(kept, Capacity(config), Slot(key, Entry(answer, size, now))),
      total + size,
      s.displaced + DisplacedBy(kept, Capacity(config), key))
  }

  function InvalidateTenantStep(s: State, tenant: string): State {
    s.(slots := OfOthers(s.slots, tenant),
       totalBytes := SaturatingSub(s.totalBytes, LiveBytes(OfTenant(s.slots, tenant))))
  }

  function Step(config: Config, s: State, op: Op): State {
    match op
    case Get(key, now) => GetStep(config, s, key, now).0
    case Put(key, answer, now) => PutStep(config, s, key, answer, now)
    case InvalidateTenant(tenant) => InvalidateTenantStep(s, tenant)
    case InvalidateAll => EMPTY
  }

  function Run(config: Config, ops: seq<Op>): State {
    if ops == [] then EMPTY
    else Step(config, Run(config, ops[..|ops| - 1]), ops[|ops| - 1])
  }

  /**
   The reference the cache is compared with: a plain unbounded map, read off the history.
   The entry of the latest put for `key` that no later invalidation covers.
   */
  function Latest(ops: seq<Op>, key: Key): Option<Entry> {
    if ops == [] then None
    else
      var rest := ops[..|ops| - 1];
      match ops[|ops| - 1]
      case Get(_, _) => Latest(rest, key)
      case Put(k, answer, now) =>
        if k == key then Some(Entry(answer, EstimateBytes(answer.batches), now)) else Latest(rest, key)
      case InvalidateTenant(tenant) => if tenant == key.tenant then None else Latest(rest, key)
      case InvalidateAll => None
  }

  // ---- The invariant ----

  ghost predicate DistinctKeys(slots: seq<Slot>) {
    forall i, j :: 0 <= i < j < |slots| ==> slots[i].key != slots[j].key
  }

  /** Byte accounting: what `total_bytes` counts and how far it can run. */
  ghost predicate Accounted(config: Config, s: State) {
    && s.totalBytes == LiveBytes(s.slots) + s.displaced
    && s.displaced <= config.maxBytes
    && (s.totalBytes <= config.maxBytes || |s.slots| == 1)
  }

  ghost predicate Shaped(config: Config, s: State) {
    DistinctKeys(s.slots) && |s.slots| <= Capacity(config)
  }

  /** Every entry still held is the one the plain map holds. */
  ghost predicate Agrees(slots: seq<Slot>, ops: seq<Op>) {
    forall i :: 0 <= i < |slots| ==> Latest(ops, slots[i].key) == Some(slots[i].entry)
  }

  ghost predicate Inv(config: Config, s: State, ops: seq<Op>) {
    Shaped(config, s) && Accounted(config, s) && Agrees(s.slots, ops)
  }

  // ---- Lemmas about the list ----

  lemma {:induction false} LiveBytesAppend(a: seq<Slot>, b: seq<Slot>)
    ensures LiveBytes(a + b) == LiveBytes(a) + LiveBytes(b)
  {
    if a == [] {
      assert a + b == b;
    } else {
      assert (a + b)[1..] == a[1..] + b;
      LiveBytesAppend(a[1..], b);
    }
  }

  lemma WithoutBytes(slots: seq<Slot>, key: Key)
    requires Lookup(slots, key).Some?
    ensures LiveBytes(slots) == LiveBytes(Without(slots, key)) + Lookup(slots, key).value.byteSize
  {
    var i := Find(slots, key);
    assert slots == slots[..i] + ([slots[i]] + slots[i + 1..]);
    LiveBytesAppend(slots[..i], [slots[i]] + slots[i + 1..]);
    LiveBytesAppend(slots[..i], slots[i + 1..]);
    LiveBytesAppend([slots[i]], slots[i + 1..]);
  }

  lemma LiveBytesLast(slots: seq<Slot>)
    requires slots != []
    ensures LiveBytes(slots) == LiveBytes(slots[..|slots| - 1]) + slots[|slots| - 1].entry.byteSize
  {
    assert slots == slots[..|slots| - 1] + [slots[|slots| - 1]];
    LiveBytesAppend(slots[..|slots| - 1], [slots[|slots| - 1]]);
  }

  /** The eviction loop drops oldest entries only, keeps the books, and stops for one of two reasons. */
  lemma {:induction false} EvictIsPrefix(slots: seq<Slot>, total: nat, incoming: nat, maxBytes: nat)
    ensures Evict(slots, total, incoming, maxBytes).0 <= slots
    decreases |slots|
  {
    if total + incoming > maxBytes && slots != [] {
      var last := |slots| - 1;
      EvictIsPrefix(slots[..last], SaturatingSub(total, slots[last].entry.byteSize), incoming, maxBytes);
    }
  }

  lemma {:induction false} EvictFacts(
      slots: seq<Slot>, total: nat, incoming: nat, maxBytes: nat, displaced: nat)
    requires total == LiveBytes(slots) + displaced
    ensures var (kept, total') := Evict(slots, total, incoming, maxBytes);
            && kept <= slots
            && total' == LiveBytes(kept) + displaced
            && (total' + incoming <= maxBytes || kept == [])
    decreases |slots|
  {
    EvictIsPrefix(slots, total, incoming, maxBytes);
    if total + incoming > maxBytes && slots != [] {
      LiveBytesLast(slots);
      EvictFacts(slots[..|slots| - 1], total - slots[|slots| - 1].entry.byteSize, incoming, maxBytes, displaced);
    }
  }

  lemma {:induction false} PartitionFacts(slots: seq<Slot>, tenant: string)
    ensures LiveBytes(slots) == LiveBytes(OfTenant(slots, tenant)) + LiveBytes(OfOthers(slots, tenant))
    ensures |slots| == |OfTenant(slots, tenant)| + |OfOthers(slots, tenant)|
    ensures forall x :: x in OfTenant(slots, tenant) <==> x in slots && x.key.tenant == tenant
    ensures forall x :: x in OfOthers(slots, tenant) <==> x in slots && x.key.tenant != tenant
  {
    if slots != [] {
      PartitionFacts(slots[1..], tenant);
      LiveBytesAppend([slots[0]], OfTenant(slots[1..], tenant));
      LiveBytesAppend([slots[0]], OfOthers(slots[1..], tenant));
      assert slots == [slots[0]] + slots[1..];
    }
  }

  lemma {:induction false} OfOthersDistinct(slots: seq<Slot>, tenant: string)
    requires DistinctKeys(slots)
    ensures DistinctKeys(OfOthers(slots, tenant))
  {
    if slots != [] {
      OfOthersDistinct(slots[1..], tenant);
      PartitionFacts(slots[1..], tenant);
    }
  }

  // ---- What a size is ----

  lemma {:induction false} BufferBytesAdd(a: seq<seq<byte>>, b: seq<seq<byte>>)
    ensures BufferBytes(a + b) == BufferBytes(a) + BufferBytes(b)
  {
    if a == [] {
      assert a + b == b;
    } else {
      assert (a + b)[1..] == a[1..] + b;
      BufferBytesAdd(a[1..], b);
    }
  }

  lemma {:induction false} ColumnBytesAdd(a: seq<seq<seq<byte>>>, b: seq<seq<seq<byte>>>)
    ensures ColumnBytes(a + b) == ColumnBytes(a) + ColumnBytes(b)
  {
    if a == [] {
      assert a + b == b;
    } else {
      assert (a + b)[1..] == a[1..] + b;
      ColumnBytesAdd(a[1..], b);
    }
  }

  lemma {:induction false} EstimateAdds(a: seq<RecordBatch>, b: seq<RecordBatch>)
    ensures EstimateBytes(a + b) == EstimateBytes(a) + EstimateBytes(b)
  {
    if a == [] {
      assert a + b == b;
    } else {
      assert (a + b)[1..] == a[1..] + b;
      EstimateAdds(a[1..], b);
    }
  }

  /** The size of an answer: its batches, columns and buffers add up, and one buffer counts its bytes. */
  lemma SizesAddUp(a: seq<RecordBatch>, b: seq<RecordBatch>, x: seq<seq<seq<byte>>>, y: seq<seq<seq<byte>>>,
                   p: seq<seq<byte>>, q: seq<seq<byte>>, buffer: seq<byte>)
    ensures EstimateBytes(a + b) == EstimateBytes(a) + EstimateBytes(b)
    ensures EstimateBytes([RecordBatch(x + y)]) == EstimateBytes([RecordBatch(x)]) + EstimateBytes([RecordBatch(y)])
    ensures EstimateBytes([RecordBatch([p + q])]) == EstimateBytes([RecordBatch([p])]) + EstimateBytes([RecordBatch([q])])
    ensures EstimateBytes([RecordBatch([[buffer]])]) == |buffer|
    ensures EstimateBytes([]) == EstimateBytes([RecordBatch([])]) == EstimateBytes([RecordBatch([[]])]) == 0
  {
    EstimateAdds(a, b);
    ColumnBytesAdd(x, y);
    BufferBytesAdd(p, q);
    assert forall columns :: [RecordBatch(columns)][1..] == [];
    OneColumn(p);
    OneColumn(q);
    OneColumn(p + q);
    OneColumn([buffer]);
    OneColumn([]);
    assert [buffer][1..] == [];
  }

  lemma OneColumn(buffers: seq<seq<byte>>)
    ensures EstimateBytes([RecordBatch([buffers])]) == BufferBytes(buffers)
  {
    var columns := [buffers];
    assert columns[1..] == [] && ColumnBytes(columns) == BufferBytes(buffers);
    assert [RecordBatch(columns)][1..] == [] && EstimateBytes([RecordBatch(columns)]) == ColumnBytes(columns) + EstimateBytes([]);
  }

  // ---- Every step keeps the invariant ----

  lemma WithoutShape(slots: seq<Slot>, key: Key)
    requires DistinctKeys(slots)
    ensures var rest := Without(slots, key);
            && DistinctKeys(rest)
            && (forall i :: 0 <= i < |rest| ==> rest[i].key != key && rest[i] in slots)
            && |rest| == |slots| - (if Lookup(slots, key).Some? then 1 else 0)
  {
    var i, rest := Find(slots, key), Without(slots, key);
    if i < |slots| {
      assert forall j :: 0 <= j < |rest| ==> rest[j] == slots[if j < i then j else j + 1];
    }
  }

  lemma FrontDistinct(slot: Slot, rest: seq<Slot>)
    requires DistinctKeys(rest)
    requires forall i :: 0 <= i < |rest| ==> rest[i].key != slot.key
    ensures DistinctKeys([slot] + rest)
  {
  }

  lemma LruPutShape(slots: seq<Slot>, capacity: nat, slot: Slot)
    requires capacity > 0 && DistinctKeys(slots) && |slots| <= capacity
    ensures DistinctKeys(LruPut(slots, capacity, slot)) && |LruPut(slots, capacity, slot)| <= capacity
  {
    if Lookup(slots, slot.key).Some? {
      WithoutShape(slots, slot.key);
      FrontDistinct(slot, Without(slots, slot.key));
    } else if |slots| >= capacity {
      FrontDistinct(slot, slots[..|slots| - 1]);
    } else {
      FrontDistinct(slot, slots);
    }
  }

  lemma PutShape(config: Config, s: State, key: Key, answer: Answer, now: nat)
    requires Shaped(config, s) && s.totalBytes == LiveBytes(s.slots) + s.displaced
    ensures Shaped(config, PutStep(config, s, key, answer, now))
  {
    var size := EstimateBytes(answer.batches);
    EvictFacts(s.slots, s.totalBytes, size, config.maxBytes, s.displaced);
    LruPutShape(Evict(s.slots, s.totalBytes, size, config.maxBytes).0, Capacity(config), Slot(key, Entry(answer, size, now)));
  }

  lemma PutAccounts(config: Config, s: State, key: Key, answer: Answer, now: nat)
    requires Shaped(config, s) && Accounted(config, s)
    ensures Accounted(config, PutStep(config, s, key, answer, now))
  {
    var size := EstimateBytes(answer.batches);
    EvictFacts(s.slots, s.totalBytes, size, config.maxBytes, s.displaced);
    var (kept, total) := Evict(s.slots, s.totalBytes, size, config.maxBytes);
    var slot := Slot(key, Entry(answer, size, now));
    if Lookup(kept, key).Some? {
      WithoutBytes(kept, key);
      LiveBytesAppend([slot], Without(kept, key));
    } else if |kept| >= Capacity(config) {
      LiveBytesLast(kept);
      LiveBytesAppend([slot], kept[..|kept| - 1]);
    } else {
      LiveBytesAppend([slot], kept);
    }
  }

  lemma LruPutMembers(slots: seq<Slot>, capacity: nat, slot: Slot)
    requires capacity > 0 && DistinctKeys(slots)
    ensures forall x | x in LruPut(slots, capacity, slot) :: x == slot || (x in slots && x.key != slot.key)
  {
    WithoutShape(slots, slot.key);
  }

  lemma PutAgrees(config: Config, s: State, ops: seq<Op>, key: Key, answer: Answer, now: nat)
    requires Inv(config, s, ops)
    ensures Agrees(PutStep(config, s, key, answer, now).slots, ops + [Put(key, answer, now)])
  {
    var size, out := EstimateBytes(answer.batches), PutStep(config, s, key, answer, now).slots;
    assert (ops + [Put(key, answer, now)])[..|ops|] == ops;
    EvictFacts(s.slots, s.totalBytes, size, config.maxBytes, s.displaced);
    var kept := Evict(s.slots, s.totalBytes, size, config.maxBytes).0;
    LruPutMembers(kept, Capacity(config), Slot(key, Entry(answer, size, now)));
    forall i | 0 <= i < |out| ensures Latest(ops + [Put(key, answer, now)], out[i].key) == Some(out[i].entry) {
      assert out[i] in out;
    }
  }

  lemma GetAgrees(config: Config, s: State, ops: seq<Op>, key: Key, now: nat)
    requires DistinctKeys(s.slots) && Agrees(s.slots, ops)
    ensures Agrees(GetStep(config, s, key, now).0.slots, ops + [Get(key, now)])
  {
    var out := GetStep(config, s, key, now).0.slots;
    assert (ops + [Get(key, now)])[..|ops|] == ops;
    WithoutShape(s.slots, key);
    forall i | 0 <= i < |out| ensures Latest(ops, out[i].key) == Some(out[i].entry) {
      assert out[i] in s.slots;
    }
  }

  lemma GetKeepsInv(config: Config, s: State, ops: seq<Op>, key: Key, now: nat)
    requires Inv(config, s, ops)
    ensures Inv(config, GetStep(config, s, key, now).0, ops + [Get(key, now)])
  {
    GetAgrees(config, s, ops, key, now);
    if Lookup(s.slots, key).Some? {
      var slot, rest := Slot(key, Lookup(s.slots, key).value), Without(s.slots, key);
      WithoutBytes(s.slots, key);
      LiveBytesAppend([slot], rest);
      WithoutShape(s.slots, key);
      FrontDistinct(slot, rest);
    }
  }

  lemma PutKeepsInv(config: Config, s: State, ops: seq<Op>, key: Key, answer: Answer, now: nat)
    requires Inv(config, s, ops)
    ensures Inv(config, PutStep(config, s, key, answer, now), ops + [Put(key, answer, now)])
  {
    PutShape(config, s, key, answer, now);
    PutAccounts(config, s, key, answer, now);
    PutAgrees(config, s, ops, key, answer, now);
  }

  lemma InvalidateKeepsInv(config: Config, s: State, ops: seq<Op>, tenant: string)
    requires Inv(config, s, ops)
    ensures Inv(config, InvalidateTenantStep(s, tenant), ops + [InvalidateTenant(tenant)])
  {
    assert (ops + [InvalidateTenant(tenant)])[..|ops|] == ops;
    PartitionFacts(s.slots, tenant);
    OfOthersDistinct(s.slots, tenant);
    var kept := OfOthers(s.slots, tenant);
    forall i | 0 <= i < |kept|
      ensures Latest(ops + [InvalidateTenant(tenant)], kept[i].key) == Some(kept[i].entry)
    {
      assert kept[i] in kept;
    }
    if |s.slots| == 1 && kept == [] {
      assert s.displaced <= config.maxBytes;
    }
  }

  lemma {:induction false} RunKeepsInv(config: Config, ops: seq<Op>)
    ensures Inv(config, Run(config, ops), ops)
  {
    if ops != [] {
      var rest, op := ops[..|ops| - 1], ops[|ops| - 1];
      RunKeepsInv(config, rest);
      assert ops == rest + [op];
      var s := Run(config, rest);
      match op
      case Get(key, now) => GetKeepsInv(config, s, rest, key, now);
      case Put(key, answer, now) => PutKeepsInv(config, s, rest, key, answer, now);
      case InvalidateTenant(tenant) => InvalidateKeepsInv(config, s, rest, tenant);
      case InvalidateAll =>
    }
  }

  // ---- Main results ----

  /**
   For every history, a hit returns the value of the latest put for exactly that tenant and
   digest, not invalidated since, and at most TTL old since that put.
   */
  lemma HitIsLatestPut(config: Config, ops: seq<Op>, key: Key, now: nat)
    ensures var hit := GetStep(config, Run(config, ops), key, now).1;
            hit.Some? ==>
              && Latest(ops, key).Some?
              && hit.value == Latest(ops, key).value.answer
              && now <= Latest(ops, key).value.insertedAt + config.ttl
  {
    RunKeepsInv(config, ops);
  }

  ghost predicate Listed(slots: seq<Slot>, key: Key) {
    exists i :: 0 <= i < |slots| && slots[i].key == key
  }

  lemma FoundIffListed(slots: seq<Slot>, key: Key)
    ensures Lookup(slots, key).Some? <==> Listed(slots, key)
  {
    if i :| 0 <= i < |slots| && slots[i].key == key {
      assert Find(slots, key) < |slots|;
    }
  }

  /** And exactly when there is one: the key is still in the list, and its latest put is at most TTL old. */
  lemma HitIff(config: Config, ops: seq<Op>, key: Key, now: nat)
    ensures GetStep(config, Run(config, ops), key, now).1.Some? <==>
              && Listed(Run(config, ops).slots, key)
              && Latest(ops, key).Some? && now <= Latest(ops, key).value.insertedAt + config.ttl
  {
    RunKeepsInv(config, ops);
    FoundIffListed(Run(config, ops).slots, key);
  }

  /** An entry whose latest put is more than TTL ago is not served, and is gone from the list afterwards. */
  lemma ExpiredIsGone(config: Config, ops: seq<Op>, key: Key, now: nat)
    requires Latest(ops, key).Some? && now > Latest(ops, key).value.insertedAt + config.ttl
    ensures GetStep(config, Run(config, ops), key, now).1 == None
    ensures !Listed(Run(config, ops + [Get(key, now)]).slots, key)
  {
    RunKeepsInv(config, ops);
    var slots := Run(config, ops).slots;
    assert (ops + [Get(key, now)])[..|ops|] == ops;
    FoundIffListed(slots, key);
    WithoutShape(slots, key);
  }

  /** No hit can come from another tenant, or from before the tenant's last invalidation. */
  lemma {:induction false} LatestIsAPut(ops: seq<Op>, key: Key)
    requires Latest(ops, key).Some?
    ensures exists i :: 0 <= i < |ops| && ops[i].Put? && ops[i].key == key
              && ops[i].answer == Latest(ops, key).value.answer
              && ops[i].now == Latest(ops, key).value.insertedAt
              && forall j :: i < j < |ops| ==>
                   && !(ops[j].Put? && ops[j].key == key)
                   && ops[j] != InvalidateTenant(key.tenant)
                   && ops[j] != InvalidateAll
  {
    var n := |ops| - 1;
    var last := ops[n];
    if last.Put? && last.key == key {
      assert ops[n].answer == Latest(ops, key).value.answer;
    } else {
      LatestIsAPut(ops[..n], key);
      var i :| 0 <= i < n && ops[..n][i].Put? && ops[..n][i].key == key
               && ops[..n][i].answer == Latest(ops[..n], key).value.answer
               && ops[..n][i].now == Latest(ops[..n], key).value.insertedAt
               && forall j :: i < j < n ==>
                    && !(ops[..n][j].Put? && ops[..n][j].key == key)
                    && ops[..n][j] != InvalidateTenant(key.tenant)
                    && ops[..n][j] != InvalidateAll;
      forall j | i < j < |ops|
        ensures !(ops[j].Put? && ops[j].key == key) && ops[j] != InvalidateTenant(key.tenant) && ops[j] != InvalidateAll
      {
        if j < n { assert ops[..n][j] == ops[j]; }
      }
      assert ops[i] == ops[..n][i];
    }
  }

  /**
   In every run the counter is the live bytes plus the displaced bytes (so no subtraction
   ever saturated), displaced bytes never pass the budget, and the live bytes stay within
   the budget unless exactly one entry remains.
   */
  lemma BytesAccounted(config: Config, ops: seq<Op>)
    ensures var s := Run(config, ops);
            && s.totalBytes == LiveBytes(s.slots) + s.displaced
            && s.displaced <= config.maxBytes
            && (LiveBytes(s.slots) <= config.maxBytes || |s.slots| == 1)
            && (|s.slots| <= config.maxEntries || |s.slots| <= 1)
  {
    RunKeepsInv(config, ops);
  }

  /**
   Displaced bytes are never given back except by a full clear, and once they leave no room
   for an entry of some size, every put of that size or more throws the whole cache away.
   */
  lemma DisplacedBytesStarve(config: Config, ops: seq<Op>, op: Op)
    ensures op != InvalidateAll ==> Run(config, ops + [op]).displaced >= Run(config, ops).displaced
    ensures op.Put? && Run(config, ops).displaced + EstimateBytes(op.answer.batches) > config.maxBytes ==>
              |Run(config, ops + [op]).slots| == 1
  {
    assert (ops + [op])[..|ops|] == ops;
    RunKeepsInv(config, ops);
    if op.Put? {
      var s := Run(config, ops);
      EvictFacts(s.slots, s.totalBytes, EstimateBytes(op.answer.batches), config.maxBytes, s.displaced);
    }
  }

  // ---- Least recently used first ----

  /** One more than the position of the last operation on `key`, or 0. */
  function Touched(ops: seq<Op>, key: Key): nat {
    if ops == [] then 0
    else
      var n := |ops| - 1;
      if (ops[n].Get? || ops[n].Put?) && ops[n].key == key then |ops| else Touched(ops[..n], key)
  }

  ghost predicate RecencyOrder(slots: seq<Slot>, ops: seq<Op>) {
    && (forall i :: 0 <= i < |slots| ==> Touched(ops, slots[i].key) <= |ops|)
    && (forall i, j :: 0 <= i < j < |slots| ==> Touched(ops, slots[i].key) > Touched(ops, slots[j].key))
  }

  /** Lists that only lose slots keep their order. */
  lemma SublistOrder(slots: seq<Slot>, kept: seq<Slot>, at: seq<nat>, ops: seq<Op>)
    requires RecencyOrder(slots, ops) && |at| == |kept|
    requires forall i :: 0 <= i < |kept| ==> at[i] < |slots| && kept[i] == slots[at[i]]
    requires forall i, j :: 0 <= i < j < |kept| ==> at[i] < at[j]
    ensures RecencyOrder(kept, ops)
  {
  }

  /** An operation on other keys keeps the order. */
  lemma SameOrder(slots: seq<Slot>, ops: seq<Op>, op: Op)
    requires RecencyOrder(slots, ops)
    requires op.Get? || op.Put? ==> forall i :: 0 <= i < |slots| ==> slots[i].key != op.key
    ensures RecencyOrder(slots, ops + [op])
  {
  }

  /** The key operated on goes to the front. */
  lemma FrontOrder(slot: Slot, rest: seq<Slot>, ops: seq<Op>, op: Op)
    requires op.Get? || op.Put?
    requires slot.key == op.key && RecencyOrder(rest, ops)
    requires forall i :: 0 <= i < |rest| ==> rest[i].key != op.key
    ensures RecencyOrder([slot] + rest, ops + [op])
  {
  }

  lemma WithoutOrder(slots: seq<Slot>, key: Key, ops: seq<Op>)
    requires RecencyOrder(slots, ops)
    ensures RecencyOrder(Without(slots, key), ops)
  {
    var i := Find(slots, key);
    if i < |slots| {
      SublistOrder(slots, Without(slots, key), seq(|slots| - 1, j requires 0 <= j => if j < i then j else j + 1), ops);
    }
  }

  lemma LruPutOrder(slots: seq<Slot>, capacity: nat, slot: Slot, ops: seq<Op>, op: Op)
    requires capacity > 0 && DistinctKeys(slots) && RecencyOrder(slots, ops)
    requires op.Put? && op.key == slot.key
    ensures RecencyOrder(LruPut(slots, capacity, slot), ops + [op])
  {
    if Lookup(slots, slot.key).Some? {
      WithoutOrder(slots, slot.key, ops);
      WithoutShape(slots, slot.key);
      FrontOrder(slot, Without(slots, slot.key), ops, op);
    } else {
      FrontOrder(slot, if |slots| >= capacity then slots[..|slots| - 1] else slots, ops, op);
    }
  }

  lemma PutOrder(config: Config, s: State, ops: seq<Op>, key: Key, answer: Answer, now: nat)
    requires Inv(config, s, ops) && RecencyOrder(s.slots, ops)
    ensures RecencyOrder(PutStep(config, s, key, answer, now).slots, ops + [Put(key, answer, now)])
  {
    var size := EstimateBytes(answer.batches);
    EvictFacts(s.slots, s.totalBytes, size, config.maxBytes, s.displaced);
    var kept := Evict(s.slots, s.totalBytes, size, config.maxBytes).0;
    assert RecencyOrder(kept, ops) && DistinctKeys(kept);
    LruPutOrder(kept, Capacity(config), Slot(key, Entry(answer, size, now)), ops, Put(key, answer, now));
  }

  lemma GetOrder(config: Config, s: State, ops: seq<Op>, key: Key, now: nat)
    requires Inv(config, s, ops) && RecencyOrder(s.slots, ops)
    ensures RecencyOrder(GetStep(config, s, key, now).0.slots, ops + [Get(key, now)])
  {
    var op, rest := Get(key, now), Without(s.slots, key);
    WithoutOrder(s.slots, key, ops);
    WithoutShape(s.slots, key);
    SameOrder(rest, ops, op);
    if Lookup(s.slots, key).Some? {
      FrontOrder(Slot(key, Lookup(s.slots, key).value), rest, ops, op);
    }
  }

  /** `at` lists, in increasing order, where the elements of `part` stand in `slots`. */
  ghost predicate PositionsOf(slots: seq<Slot>, part: seq<Slot>, at: seq<nat>) {
    && |at| == |part|
    && (forall i :: 0 <= i < |at| ==> at[i] < |slots| && part[i] == slots[at[i]])
    && (forall i, j :: 0 <= i < j < |at| ==> at[i] < at[j])
  }

  lemma PositionsCons(slots: seq<Slot>, part: seq<Slot>, at: seq<nat>) returns (shifted: seq<nat>)
    requires slots != [] && PositionsOf(slots[1..], part, at)
    ensures PositionsOf(slots, part, shifted) && PositionsOf(slots, [slots[0]] + part, [0] + shifted)
  {
    shifted := seq(|at|, i requires 0 <= i < |at| => at[i] + 1);
  }

  lemma {:induction false} OfOthersPositions(slots: seq<Slot>, tenant: string) returns (at: seq<nat>)
    ensures PositionsOf(slots, OfOthers(slots, tenant), at)
  {
    at := [];
    if slots != [] {
      var tail := OfOthersPositions(slots[1..], tenant);
      at := PositionsCons(slots, OfOthers(slots[1..], tenant), tail);
      if slots[0].key.tenant != tenant {
        at := [0] + at;
      }
    }
  }

  /** In every run the list is ordered by how recently each key was asked for or stored. */
  lemma {:induction false} RunKeepsOrder(config: Config, ops: seq<Op>)
    ensures RecencyOrder(Run(config, ops).slots, ops)
  {
    if ops != [] {
      var rest, op := ops[..|ops| - 1], ops[|ops| - 1];
      RunKeepsOrder(config, rest);
      RunKeepsInv(config, rest);
      assert ops == rest + [op];
      var s := Run(config, rest);
      match op
      case Get(key, now) => GetOrder(config, s, rest, key, now);
      case Put(key, answer, now) => PutOrder(config, s, rest, key, answer, now);
      case InvalidateTenant(tenant) =>
        var at := OfOthersPositions(s.slots, tenant);
        SublistOrder(s.slots, OfOthers(s.slots, tenant), at, rest);
        SameOrder(OfOthers(s.slots, tenant), rest, op);
      case InvalidateAll =>
    }
  }

  /** A put drops another key only if it is less recent than every other key that stays. */
  lemma PutEvictsOldest(config: Config, ops: seq<Op>, put: Op, gone: Slot, stays: Slot)
    requires put.Put?
    requires gone in Run(config, ops).slots && stays in Run(config, ops).slots
    requires gone.key != put.key && stays.key != put.key
    requires gone !in Run(config, ops + [put]).slots && stays in Run(config, ops + [put]).slots
    ensures Touched(ops, gone.key) < Touched(ops, stays.key)
  {
    assert (ops + [put])[..|ops|] == ops;
    RunKeepsInv(config, ops);
    RunKeepsOrder(config, ops);
    var s, size := Run(config, ops), EstimateBytes(put.answer.batches);
    EvictFacts(s.slots, s.totalBytes, size, config.maxBytes, s.displaced);
    var kept := Evict(s.slots, s.totalBytes, size, config.maxBytes).0;
    var i, j :| 0 <= i < |s.slots| && 0 <= j < |s.slots| && s.slots[i] == gone && s.slots[j] == stays;
    StaysInPrefix(config, s, kept, put, stays, j);
    if i < |kept| && (Lookup(kept, put.key).Some? || |kept| < Capacity(config) || i < |kept| - 1) {
      LruPutKeeps(kept, Capacity(config), Slot(put.key, Entry(put.answer, size, put.now)), i);
      assert false;
    }
  }

  lemma StaysInPrefix(config: Config, s: State, kept: seq<Slot>, put: Op, stays: Slot, j: nat)
    requires put.Put? && kept <= s.slots && DistinctKeys(s.slots)
    requires stays.key != put.key && j < |s.slots| && s.slots[j] == stays
    requires stays in LruPut(kept, Capacity(config), Slot(put.key, Entry(put.answer, EstimateBytes(put.answer.batches), put.now)))
    ensures j < |kept|
    ensures Lookup(kept, put.key).None? && |kept| >= Capacity(config) ==> j < |kept| - 1
  {
    WithoutShape(kept, put.key);
    assert stays in kept;
    var m :| 0 <= m < |kept| && kept[m] == stays;
    assert s.slots[m] == stays;
    if Lookup(kept, put.key).None? && |kept| >= Capacity(config) {
      var m' :| 0 <= m' < |kept| - 1 && kept[m'] == stays;
      assert s.slots[m'] == stays;
    }
  }

  /** `LruPut` keeps every other key, except the last one of a full list. */
  lemma LruPutKeeps(kept: seq<Slot>, capacity: nat, slot: Slot, i: nat)
    requires capacity > 0 && i < |kept| && kept[i].key != slot.key
    requires Lookup(kept, slot.key).Some? || |kept| < capacity || i < |kept| - 1
    ensures kept[i] in LruPut(kept, capacity, slot)
  {
    var at, put := Find(kept, slot.key), LruPut(kept, capacity, slot);
    if at < |kept| {
      assert put[if i < at then i + 1 else i] == kept[i];
    } else {
      assert put[i + 1] == kept[i];
    }
  }

  lemma PrefixBytes(slots: seq<Slot>, m: nat, n: nat)
    requires m <= n <= |slots|
    ensures LiveBytes(slots[..m]) <= LiveBytes(slots[..n])
  {
    assert slots[..n] == slots[..m] + slots[m..n];
    LiveBytesAppend(slots[..m], slots[m..n]);
  }

  /** The eviction loop stops as soon as the new entry fits: no longer front part of the list would do. */
  lemma {:induction false} EvictIsMinimal(slots: seq<Slot>, total: nat, incoming: nat, maxBytes: nat, displaced: nat, n: nat)
    requires total == LiveBytes(slots) + displaced && n <= |slots|
    requires n > |Evict(slots, total, incoming, maxBytes).0|
    ensures LiveBytes(slots[..n]) + displaced + incoming > maxBytes
    decreases |slots|
  {
    if total + incoming > maxBytes {
      if n == |slots| {
        assert slots[..n] == slots;
      } else {
        LiveBytesLast(slots);
        assert slots[..|slots| - 1][..n] == slots[..n];
        EvictIsMinimal(slots[..|slots| - 1], total - slots[|slots| - 1].entry.byteSize, incoming, maxBytes, displaced, n);
      }
    }
  }

  /** So an entry survives the eviction loop exactly if it, all more recent ones and the new one fit. */
  lemma SurvivesIff(config: Config, s: State, size: nat, i: nat)
    requires s.totalBytes == LiveBytes(s.slots) + s.displaced && i < |s.slots|
    ensures var kept := Evict(s.slots, s.totalBytes, size, config.maxBytes).0;
            kept <= s.slots && (i < |kept| <==> LiveBytes(s.slots[..i + 1]) + s.displaced + size <= config.maxBytes)
  {
    EvictFacts(s.slots, s.totalBytes, size, config.maxBytes, s.displaced);
    var kept := Evict(s.slots, s.totalBytes, size, config.maxBytes).0;
    if i < |kept| {
      PrefixBytes(s.slots, i + 1, |kept|);
      assert s.slots[..|kept|] == kept;
    } else {
      EvictIsMinimal(s.slots, s.totalBytes, size, config.maxBytes, s.displaced, i + 1);
    }
  }

  /** What the LRU list itself does with entry `i`: a full list drops its last one for a new key. */
  lemma LruPutKeepsIff(kept: seq<Slot>, capacity: nat, slot: Slot, i: nat)
    requires capacity > 0 && i < |kept| && kept[i].key != slot.key && DistinctKeys(kept) && |kept| <= capacity
    ensures kept[i] in LruPut(kept, capacity, slot) <==> i + 1 < capacity || Listed(kept, slot.key)
  {
    FoundIffListed(kept, slot.key);
    if i + 1 < capacity || Listed(kept, slot.key) {
      LruPutKeeps(kept, capacity, slot, i);
    } else {
      assert forall j :: 0 <= j < |kept| - 1 ==> kept[j] != kept[i];
    }
  }

  lemma LruPutNew(kept: seq<Slot>, capacity: nat, slot: Slot, x: Slot)
    requires capacity > 0 && x.key != slot.key && x !in kept
    ensures x !in LruPut(kept, capacity, slot)
  {
  }

  lemma BeyondPrefix(slots: seq<Slot>, kept: seq<Slot>, i: nat)
    requires DistinctKeys(slots) && kept <= slots && |kept| <= i < |slots|
    ensures slots[i] !in kept
  {
  }

  /**
   Exactly which entries a put leaves: those that fit in the budget together with all more recent
   ones, the displaced bytes and the new entry, except for the last one of a full list when the key is new.
   */
  lemma PutKeepsIff(config: Config, ops: seq<Op>, put: Op, i: nat)
    requires put.Put? && i < |Run(config, ops).slots| && Run(config, ops).slots[i].key != put.key
    ensures var s := Run(config, ops);
            s.slots[i] in Run(config, ops + [put]).slots <==>
              && LiveBytes(s.slots[..i + 1]) + s.displaced + EstimateBytes(put.answer.batches) <= config.maxBytes
              && (i + 1 < config.maxEntries || Listed(s.slots, put.key))
  {
    assert (ops + [put])[..|ops|] == ops;
    RunKeepsInv(config, ops);
    var s, size := Run(config, ops), EstimateBytes(put.answer.batches);
    var kept, slot := Evict(s.slots, s.totalBytes, size, config.maxBytes).0, Slot(put.key, Entry(put.answer, size, put.now));
    SurvivesIff(config, s, size, i);
    if i < |kept| {
      LruPutKeepsIff(kept, Capacity(config), slot, i);
      FullKeepsAll(config, s.slots, kept, put.key, i);
    } else {
      BeyondPrefix(s.slots, kept, i);
      LruPutNew(kept, Capacity(config), slot, s.slots[i]);
    }
  }

  /** The last place of a full list is reached only if nothing was evicted. */
  lemma FullKeepsAll(config: Config, slots: seq<Slot>, kept: seq<Slot>, key: Key, i: nat)
    requires kept <= slots && |slots| <= Capacity(config) && i < |kept| && kept[i].key != key
    ensures (i + 1 < Capacity(config) || Listed(kept, key)) <==> (i + 1 < config.maxEntries || Listed(slots, key))
  {
    if i + 1 >= Capacity(config) {
      assert kept == slots;
    }
  }

  /** In particular, a put that fits by bytes and by count drops no other key. */
  lemma PutThatFitsKeepsAll(config: Config, ops: seq<Op>, put: Op, x: Slot)
    requires put.Put? && x in Run(config, ops).slots && x.key != put.key
    requires Run(config, ops).totalBytes + EstimateBytes(put.answer.batches) <= config.maxBytes
    requires |Run(config, ops).slots| < config.maxEntries || Run(config, ops).slots == []
    ensures x in Run(config, ops + [put]).slots
  {
    RunKeepsInv(config, ops);
    var s := Run(config, ops);
    var i :| 0 <= i < |s.slots| && s.slots[i] == x;
    PutKeepsIff(config, ops, put, i);
    PrefixBytes(s.slots, i + 1, |s.slots|);
    assert s.slots[..|s.slots|] == s.slots;
  }

  // ---- What the worker's re-put does to age and to the books ----

  function Times(n: nat, size: nat): nat {
    if n == 0 then 0 else Times(n - 1, size) + size
  }

  lemma {:induction false} TimesIsProduct(n: nat, size: nat)
    ensures Times(n, size) == n * size
  {
    if n > 0 {
      TimesIsProduct(n - 1, size);
    }
  }

  /** A store and `n` rounds, each one TTL after the previous: ask, and store the answer again if there was one. */
  function HotLoop(config: Config, key: Key, answer: Answer, n: nat): seq<Op> {
    if n == 0 then [Put(key, answer, 0)]
    else
      var before, now := HotLoop(config, key, answer, n - 1), Times(n, config.ttl);
      var hit := GetStep(config, Run(config, before), key, now).1;
      before + if hit.Some? then [Get(key, now), Put(key, hit.value, now)] else [Get(key, now)]
  }

  lemma RunSnoc(config: Config, ops: seq<Op>, op: Op)
    ensures Run(config, ops + [op]) == Step(config, Run(config, ops), op)
  {
    assert (ops + [op])[..|ops|] == ops;
  }

  lemma RunSnoc2(config: Config, ops: seq<Op>, a: Op, b: Op)
    ensures Run(config, ops + [a, b]) == Step(config, Step(config, Run(config, ops), a), b)
  {
    assert ops + [a, b] == (ops + [a]) + [b];
    RunSnoc(config, ops, a);
    RunSnoc(config, ops + [a], b);
  }

  ghost predicate StoredAt(s: State, key: Key, answer: Answer, now: nat) {
    s.slots != [] && s.slots[0] == Slot(key, Entry(answer, EstimateBytes(answer.batches), now))
  }

  lemma PutIsFront(config: Config, s: State, key: Key, answer: Answer, now: nat)
    ensures StoredAt(PutStep(config, s, key, answer, now), key, answer, now)
  {
  }

  /** The answer is at the front, as old as `now`. */
  ghost predicate ServedAt(s: State, key: Key, answer: Answer, now: nat) {
    s.slots != [] && s.slots[0].key == key && s.slots[0].entry.answer == answer && s.slots[0].entry.insertedAt == now
  }

  /** A key stored at the front is found one TTL later. */
  lemma FrontHit(config: Config, s: State, key: Key, answer: Answer, since: nat, now: nat)
    requires ServedAt(s, key, answer, since) && now == since + config.ttl
    ensures GetStep(config, s, key, now).1 == Some(answer)
  {
  }

  lemma FirstPut(config: Config, key: Key, answer: Answer)
    ensures ServedAt(Run(config, HotLoop(config, key, answer, 0)), key, answer, Times(0, config.ttl))
  {
    assert [Put(key, answer, 0)][..0] == [];
    PutIsFront(config, EMPTY, key, answer, 0);
  }

  lemma HotRound(config: Config, ops: seq<Op>, key: Key, answer: Answer, now: nat)
    ensures ServedAt(Run(config, ops + [Get(key, now), Put(key, answer, now)]), key, answer, now)
  {
    RunSnoc2(config, ops, Get(key, now), Put(key, answer, now));
    PutIsFront(config, Step(config, Run(config, ops), Get(key, now)), key, answer, now);
  }

  /** Each hit stores what the next round finds. */
  lemma HotUnfolds(config: Config, key: Key, answer: Answer, n: nat)
    requires n > 0 && ServedAt(Run(config, HotLoop(config, key, answer, n - 1)), key, answer, Times(n - 1, config.ttl))
    ensures var now := Times(n, config.ttl);
            HotLoop(config, key, answer, n) == HotLoop(config, key, answer, n - 1) + [Get(key, now), Put(key, answer, now)]
  {
    FrontHit(config, Run(config, HotLoop(config, key, answer, n - 1)), key, answer, Times(n - 1, config.ttl), Times(n, config.ttl));
  }

  lemma HotStaysOnce(config: Config, key: Key, answer: Answer, n: nat)
    requires n > 0 && ServedAt(Run(config, HotLoop(config, key, answer, n - 1)), key, answer, Times(n - 1, config.ttl))
    ensures ServedAt(Run(config, HotLoop(config, key, answer, n)), key, answer, Times(n, config.ttl))
  {
    HotUnfolds(config, key, answer, n);
    HotRound(config, HotLoop(config, key, answer, n - 1), key, answer, Times(n, config.ttl));
  }

  /** After every round the first answer is there, as old as the round. */
  lemma {:induction false} HotAnswerStays(config: Config, key: Key, answer: Answer, n: nat)
    ensures ServedAt(Run(config, HotLoop(config, key, answer, n)), key, answer, Times(n, config.ttl))
  {
    if n == 0 {
      FirstPut(config, key, answer);
    } else {
      HotAnswerStays(config, key, answer, n - 1);
      HotStaysOnce(config, key, answer, n);
    }
  }

  /**
   The TTL is counted from the last put, so an answer that is asked for at least once per TTL
   is served for ever: after any number of rounds the first answer is still a hit.
   */
  lemma HotAnswerNeverExpires(config: Config, key: Key, answer: Answer, n: nat)
    ensures GetStep(config, Run(config, HotLoop(config, key, answer, n)), key, (n + 1) * config.ttl).1 == Some(answer)
  {
    HotAnswerStays(config, key, answer, n);
    FrontHit(config, Run(config, HotLoop(config, key, answer, n)), key, answer, Times(n, config.ttl), Times(n + 1, config.ttl));
    TimesIsProduct(n + 1, config.ttl);
  }

  /** The cache after `n` rounds: one live entry, and `n` times its size displaced. */
  function Leaked(config: Config, key: Key, answer: Answer, n: nat): State {
    var size := EstimateBytes(answer.batches);
    State([Slot(key, Entry(answer, size, Times(n, config.ttl)))], Times(n + 1, size), Times(n, size))
  }

  /** One round on a cache that holds only this entry. */
  lemma LeakingRound(config: Config, s: State, key: Key, answer: Answer, now: nat)
    requires |s.slots| == 1 && s.slots[0].key == key && s.slots[0].entry.answer == answer
    requires s.slots[0].entry.byteSize == EstimateBytes(answer.batches)
    requires Elapsed(now, s.slots[0].entry.insertedAt) <= config.ttl
    requires s.totalBytes + EstimateBytes(answer.batches) <= config.maxBytes
    ensures var size := EstimateBytes(answer.batches);
            Step(config, Step(config, s, Get(key, now)), Put(key, answer, now)) ==
            State([Slot(key, Entry(answer, size, now))], s.totalBytes + size, s.displaced + size)
  {
    assert s.slots == [Slot(key, s.slots[0].entry)];
    var mid := Step(config, s, Get(key, now));
    assert mid == s;
  }

  lemma {:induction false} RoundsLeak(config: Config, key: Key, answer: Answer, n: nat)
    requires Times(n + 1, EstimateBytes(answer.batches)) <= config.maxBytes
    ensures Run(config, HotLoop(config, key, answer, n)) == Leaked(config, key, answer, n)
  {
    if n == 0 {
      assert HotLoop(config, key, answer, 0)[..0] == [];
    } else {
      RoundsLeak(config, key, answer, n - 1);
      HotAnswerStays(config, key, answer, n - 1);
      HotUnfolds(config, key, answer, n);
      var ops, now := HotLoop(config, key, answer, n - 1), Times(n, config.ttl);
      RunSnoc2(config, ops, Get(key, now), Put(key, answer, now));
      LeakingRound(config, Leaked(config, key, answer, n - 1), key, answer, now);
    }
  }

  /** Each re-put of an entry of `b` bytes leaks `b` bytes of budget until the budget is full. */
  lemma RePutLeaks(config: Config, key: Key, answer: Answer, n: nat)
    requires (n + 1) * EstimateBytes(answer.batches) <= config.maxBytes
    ensures var s, size := Run(config, HotLoop(config, key, answer, n)), EstimateBytes(answer.batches);
            |s.slots| == 1 && s.totalBytes == (n + 1) * size && s.displaced == n * size
  {
    TimesIsProduct(n, EstimateBytes(answer.batches));
    TimesIsProduct(n + 1, EstimateBytes(answer.batches));
    RoundsLeak(config, key, answer, n);
  }

  // ---- The object ----

  function KeyOf(sha256: string -> seq<byte>, tenant: string, sql: string): Key {
    Key(tenant, sha256(sql))
  }

  /** `QueryCache`: the fields behind the mutex, with the history of calls as ghost state. */
  class Cache {
    const config: Config
    const sha256: string -> seq<byte>
    var lru: seq<Slot>
    var totalBytes: nat
    ghost var displaced: nat
    ghost var history: seq<Op>

    ghost function Abstract(): State
      reads this
    {
      State(lru, totalBytes, displaced)
    }

    ghost predicate Valid()
      reads this
    {
      Abstract() == Run(config, history)
    }

    constructor (config: Config, sha256: string -> seq<byte>)
      ensures Valid() && history == []
      ensures this.config == config && this.sha256 == sha256
    {
      this.config, this.sha256 := config, sha256;
      lru, totalBytes, displaced, history := [], 0, 0, [];
    }

    /** Look up a result; an expired entry is evicted on the way. */
    method Lookup(tenant: string, sql: string, now: nat) returns (hit: Option<Answer>)
      requires Valid()
      modifies this
      ensures Valid() && history == old(history) + [Get(KeyOf(sha256, tenant, sql), now)]
      ensures hit == GetStep(config, old(Abstract()), KeyOf(sha256, tenant, sql), now).1
    {
      var key := KeyOf(sha256, tenant, sql);
      var i := Find(lru, key);
      hit := None;
      if i < |lru| {
        var entry := lru[i].entry;
        lru := [lru[i]] + (lru[..i] + lru[i + 1..]);
        if Elapsed(now, entry.insertedAt) > config.ttl {
          lru := lru[1..];
          totalBytes := SaturatingSub(totalBytes, entry.byteSize);
        } else {
          hit := Some(entry.answer);
        }
      }
      history := history + [Get(key, now)];
      assert history[..|history| - 1] == old(history);
    }

    /** Store a result, evicting oldest entries until it fits by bytes. */
    method Store(tenant: string, sql: string, answer: Answer, now: nat)
      requires Valid()
      modifies this
      ensures Valid() && history == old(history) + [Put(KeyOf(sha256, tenant, sql), answer, now)]
    {
      var key := KeyOf(sha256, tenant, sql);
      var size := EstimateBytes(answer.batches);
      while totalBytes + size > config.maxBytes && lru != []
        invariant Evict(lru, totalBytes, size, config.maxBytes) == old(Evict(lru, totalBytes, size, config.maxBytes))
        invariant displaced == old(displaced) && history == old(history)
        decreases |lru|
      {
        var evicted := lru[|lru| - 1];
        lru := lru[..|lru| - 1];
        totalBytes := SaturatingSub(totalBytes, evicted.entry.byteSize);
      }
      totalBytes := totalBytes + size;
      displaced := displaced + DisplacedBy(lru, Capacity(config), key);
      lru := LruPut(lru, Capacity(config), Slot(key, Entry(answer, size, now)));
      history := history + [Put(key, answer, now)];
      assert history[..|history| - 1] == old(history);
    }

    /** Collect the tenant's keys, then pop them one by one. */
    method PopTenant(tenant: string)
      requires DistinctKeys(lru) && totalBytes == LiveBytes(lru) + displaced
      modifies this`lru, this`totalBytes
      ensures lru == OfOthers(old(lru), tenant) && totalBytes == LiveBytes(lru) + displaced
    {
      var doomed := OfTenant(lru, tenant);
      var n := 0;
      while n < |doomed|
        invariant 0 <= n <= |doomed|
        invariant DistinctKeys(lru) && totalBytes == LiveBytes(lru) + displaced
        invariant OfTenant(lru, tenant) == doomed[n..]
        invariant OfOthers(lru, tenant) == OfOthers(old(lru), tenant)
      {
        var key := doomed[n].key;
        var i := Find(lru, key);
        PopKeepsBooks(lru, tenant, totalBytes, displaced);
        var entry := lru[i].entry;
        lru := lru[..i] + lru[i + 1..];
        totalBytes := SaturatingSub(totalBytes, entry.byteSize);
        n := n + 1;
      }
      NoneOfTenant(lru, tenant);
    }

    method InvalidateOne(tenant: string)
      requires Valid()
      modifies this
      ensures Valid() && history == old(history) + [InvalidateTenant(tenant)]
    {
      RunKeepsInv(config, history);
      PartitionFacts(lru, tenant);
      PopTenant(tenant);
      history := history + [InvalidateTenant(tenant)];
      assert history[..|history| - 1] == old(history);
    }

    method InvalidateEverything()
      requires Valid()
      modifies this
      ensures Valid() && history == old(history) + [InvalidateAll]
    {
      lru, totalBytes, displaced := [], 0, 0;
      history := history + [InvalidateAll];
    }
  }

  lemma SplitHead(slot: Slot, rest: seq<Slot>, tenant: string)
    ensures OfTenant([slot] + rest, tenant) == (if slot.key.tenant == tenant then [slot] else []) + OfTenant(rest, tenant)
    ensures OfOthers([slot] + rest, tenant) == (if slot.key.tenant == tenant then [] else [slot]) + OfOthers(rest, tenant)
  {
    assert ([slot] + rest)[1..] == rest;
  }

  lemma CutLater(slots: seq<Slot>, i: nat)
    requires i + 1 < |slots|
    ensures slots[..i + 1] + slots[i + 2..] == [slots[0]] + (slots[1..][..i] + slots[1..][i + 1..])
  {
  }

  lemma WithoutLater(slots: seq<Slot>, key: Key)
    requires slots != [] && slots[0].key != key
    ensures Find(slots, key) == 1 + Find(slots[1..], key)
    ensures Without(slots, key) == [slots[0]] + Without(slots[1..], key)
  {
    var i := Find(slots[1..], key);
    if i + 1 < |slots| {
      CutLater(slots, i);
    } else {
      assert slots == [slots[0]] + slots[1..];
    }
  }

  /** Popping the first of a tenant's keys removes exactly that slot from the tenant's share. */
  lemma {:induction false} PopFirstOfTenant(slots: seq<Slot>, tenant: string)
    requires DistinctKeys(slots) && OfTenant(slots, tenant) != []
    ensures var key := OfTenant(slots, tenant)[0].key;
            && Find(slots, key) < |slots|
            && OfTenant(Without(slots, key), tenant) == OfTenant(slots, tenant)[1..]
            && OfOthers(Without(slots, key), tenant) == OfOthers(slots, tenant)
  {
    var first, rest := slots[0], slots[1..];
    assert slots == [first] + rest;
    SplitHead(first, rest, tenant);
    if first.key.tenant == tenant {
      assert Without(slots, first.key) == rest;
    } else {
      PopFirstOfTenant(rest, tenant);
      var slot := OfTenant(rest, tenant)[0];
      PartitionFacts(rest, tenant);
      assert slot in OfTenant(rest, tenant);
      WithoutLater(slots, slot.key);
      SplitHead(first, Without(rest, slot.key), tenant);
    }
  }

  /** One round of the removal loop. */
  lemma PopKeepsBooks(slots: seq<Slot>, tenant: string, total: nat, displaced: nat)
    requires DistinctKeys(slots) && total == LiveBytes(slots) + displaced && OfTenant(slots, tenant) != []
    ensures var i := Find(slots, OfTenant(slots, tenant)[0].key);
            && i < |slots|
            && var rest := slots[..i] + slots[i + 1..];
               && DistinctKeys(rest) && SaturatingSub(total, slots[i].entry.byteSize) == LiveBytes(rest) + displaced
               && OfTenant(rest, tenant) == OfTenant(slots, tenant)[1..] && OfOthers(rest, tenant) == OfOthers(slots, tenant)
  {
    var key := OfTenant(slots, tenant)[0].key;
    var i := Find(slots, key);
    PopFirstOfTenant(slots, tenant);
    assert Without(slots, key) == slots[..i] + slots[i + 1..];
    WithoutBytes(slots, key);
    WithoutShape(slots, key);
  }

  lemma {:induction false} NoneOfTenant(slots: seq<Slot>, tenant: string)
    requires OfTenant(slots, tenant) == []
    ensures OfOthers(slots, tenant) == slots
  {
    if slots != [] {
      NoneOfTenant(slots[1..], tenant);
    }
  }
}
