/** The result cache of services/cache_manager.py: a bounded in-memory tier
    in front of a directory of JSON descriptors and data files, with a
    time-to-live per entry and hit/miss counters.

    The memory tier is a Python dict, so its key order matters (the eviction
    takes the first oldest key); it is the `MemoryTier` value below. The
    descriptor files are the map `disk` from cache key to what the file
    parses to, and the `.zip` data files are the set `dataFiles` of keys that
    have one. SHA-256 over the JSON text of the request is the function
    `digest`, given when the cache is built; nothing is assumed about it. */
module CacheManager {
  import opened Common
  import PyStr

  /** The cached dictionary, as its JSON text. */
  type Payload = string

  /** A cache key: the 16 hexadecimal digits `_generate_cache_key` keeps,
      read as a number. */
  datatype Key = Key(value: nat)

  /** A Python dict of request options, as its items in insertion order. */
  type Options = seq<(string, string)>

  const MaxMemoryItems: nat := 100
  const DefaultTtl: int := 3600
  /** `max_file_size`: 10 MiB. */
  const MaxFileSize: nat := 10 * 1024 * 1024

  /** What `set` stores under a key. */
  datatype CacheItem = CacheItem(data: Payload, createdAt: int, ttl: int, url: string, options: Options)

  /** A descriptor file: what `json.loads` produced, or a file it cannot read. */
  datatype DiskEntry = Stored(item: CacheItem) | Unreadable

  /** How far writing a file got: the open failed and nothing was touched;
      the open created or truncated the file and the write then failed; or
      the whole content was written. */
  datatype WriteOutcome = OpenFailed | WriteFailed | Written

  // _generate_cache_key

  /** A dict has no key twice. */
  predicate UniqueKeys(o: Options)
  {
    forall i, j :: 0 <= i < j < |o| ==> o[i].0 != o[j].0
  }

  /** Keys in strictly increasing string order, as `json.dumps(sort_keys=True)`
      writes them. */
  predicate StrictlySorted(o: Options)
  {
    forall i, j :: 0 <= i < j < |o| ==> PyStr.Less(o[i].0, o[j].0)
  }

  function InsertOption(p: (string, string), o: Options): (r: Options)
    ensures |r| == |o| + 1
    ensures forall x :: x in r <==> x == p || x in o
  {
    if |o| == 0 || PyStr.Less(p.0, o[0].0) then [p] + o
    else [o[0]] + InsertOption(p, o[1..])
  }

  /** Inserting an item whose key is new keeps the keys strictly sorted. */
  lemma {:induction false} InsertOptionSorted(p: (string, string), o: Options)
    requires StrictlySorted(o) && forall x :: x in o ==> x.0 != p.0
    ensures StrictlySorted(InsertOption(p, o))
    decreases |o|
  {
    if |o| > 0 && !PyStr.Less(p.0, o[0].0) {
      assert o[0] in o;
      PyStr.LessTotal(p.0, o[0].0);
      var tail := InsertOption(p, o[1..]);
      InsertOptionSorted(p, o[1..]);
      var r := [o[0]] + tail;
      forall j | 0 < j < |r| ensures PyStr.Less(o[0].0, r[j].0) {
        assert r[j] in tail;
        if r[j] != p {
          var k :| 0 <= k < |o[1..]| && o[1..][k] == r[j];
          assert o[k + 1] == r[j];
        }
      }
      forall i, j | 0 <= i < j < |r| ensures PyStr.Less(r[i].0, r[j].0) {
        if i > 0 {
          assert r[i] == tail[i - 1] && r[j] == tail[j - 1];
        }
      }
      assert InsertOption(p, o) == r;
    } else if |o| > 0 {
      var r := [p] + o;
      forall i, j | 0 <= i < j < |r| ensures PyStr.Less(r[i].0, r[j].0) {
        if i == 0 && j > 1 {
          PyStr.LessTransitive(p.0, o[0].0, o[j - 1].0);
        }
      }
    }
  }

  /** The options in key order. */
  function SortOptions(o: Options): (r: Options)
    ensures |r| == |o|
    ensures forall x :: x in r <==> x in o
  {
    if |o| == 0 then [] else InsertOption(o[0], SortOptions(o[1..]))
  }

  /** The keys of a dict come out strictly sorted. */
  lemma {:induction false} SortOptionsSorted(o: Options)
    requires UniqueKeys(o)
    ensures StrictlySorted(SortOptions(o))
    decreases |o|
  {
    if |o| > 0 {
      var rest := SortOptions(o[1..]);
      assert UniqueKeys(o[1..]);
      SortOptionsSorted(o[1..]);
      forall x | x in rest ensures x.0 != o[0].0 {
        var j :| 0 <= j < |o[1..]| && o[1..][j] == x;
        assert o[j + 1] == x;
      }
      InsertOptionSorted(o[0], rest);
    }
  }

  /** Two non-empty strictly sorted option lists with the same items start
      with the same item: each head is the least item of both. */
  lemma SortedHeads(a: Options, b: Options)
    requires StrictlySorted(a) && StrictlySorted(b)
    requires forall x :: x in a <==> x in b
    requires |a| > 0 && |b| > 0
    ensures a[0] == b[0]
  {
    assert a[0] in b && b[0] in a;
    var i :| 0 <= i < |a| && a[i] == b[0];
    var j :| 0 <= j < |b| && b[j] == a[0];
    if i > 0 && j > 0 {
      PyStr.LessTransitive(a[0].0, b[0].0, a[0].0);
      PyStr.LessIrreflexive(a[0].0);
    } else if i > 0 {
      PyStr.LessIrreflexive(a[0].0);
    } else if j > 0 {
      PyStr.LessIrreflexive(b[0].0);
    }
  }

  /** Below a common head, the tails hold the same items. */
  lemma SortedTails(a: Options, b: Options)
    requires StrictlySorted(a) && StrictlySorted(b)
    requires forall x :: x in a <==> x in b
    requires |a| > 0 && |b| > 0 && a[0] == b[0]
    ensures forall x :: x in a[1..] <==> x in b[1..]
  {
    forall x ensures x in a[1..] <==> x in b[1..] {
      if x in a[1..] {
        var k :| 0 <= k < |a[1..]| && a[1..][k] == x;
        assert a[k + 1] == x;
        PyStr.LessIrreflexive(a[0].0);
        assert x in b;
      }
      if x in b[1..] {
        var k :| 0 <= k < |b[1..]| && b[1..][k] == x;
        assert b[k + 1] == x;
        PyStr.LessIrreflexive(b[0].0);
        assert x in a;
      }
    }
  }

  /** Two strictly sorted option lists with the same items are equal. */
  lemma {:induction false} SortedUnique(a: Options, b: Options)
    requires StrictlySorted(a) && StrictlySorted(b)
    requires forall x :: x in a <==> x in b
    ensures a == b
    decreases |a|
  {
    if |a| + |b| > 0 {
      assert (a + b)[0] in a + b;
      var y :| y in a + b;
      assert y in a && y in b;
      SortedHeads(a, b);
      SortedTails(a, b);
      SortedUnique(a[1..], b[1..]);
      assert a == [a[0]] + a[1..];
      assert b == [b[0]] + b[1..];
    }
  }

  /** `options or {}`. */
  function OrEmpty(options: Option<Options>): Options
  {
    if options.Some? then options.value else []
  }

  /** `_generate_cache_key`: the digest of the URL and the options written in
      key order. */
  function CacheKey(digest: (string, Options) -> Key, url: string, options: Option<Options>): Key
  {
    digest(url, SortOptions(OrEmpty(options)))
  }

  /** The key depends on the options' items, not on their insertion order;
      no options and an empty dict are the same. */
  lemma CacheKeyIgnoresOrder(digest: (string, Options) -> Key, url: string, a: Option<Options>, b: Option<Options>)
    requires UniqueKeys(OrEmpty(a)) && UniqueKeys(OrEmpty(b))
    requires forall x :: x in OrEmpty(a) <==> x in OrEmpty(b)
    ensures CacheKey(digest, url, a) == CacheKey(digest, url, b)
  {
    SortOptionsSorted(OrEmpty(a));
    SortOptionsSorted(OrEmpty(b));
    SortedUnique(SortOptions(OrEmpty(a)), SortOptions(OrEmpty(b)));
  }

  // _is_cache_valid

  /** `_is_cache_valid` for an entry written by `set`: younger than its ttl.
      Seconds are whole numbers here. */
  predicate Fresh(item: CacheItem, now: int)
  {
    now - item.createdAt < item.ttl
  }

  /** `ttl or self.default_ttl`: no ttl and a zero ttl both mean an hour. */
  function EffectiveTtl(ttl: Option<int>): (t: int)
    ensures ttl == None || ttl == Some(0) ==> t == DefaultTtl
    ensures ttl.Some? && ttl.value != 0 ==> t == ttl.value
  {
    if ttl.None? || ttl.value == 0 then DefaultTtl else ttl.value
  }

  /** The item `set` stores. */
  function NewItem(url: string, data: Payload, options: Option<Options>, ttl: Option<int>, now: int): CacheItem
  {
    CacheItem(data, now, EffectiveTtl(ttl), url, OrEmpty(options))
  }

  /** A freshly stored item is valid at the same instant exactly when its
      effective ttl is positive, and it stays valid for that many seconds. */
  lemma NewItemFresh(url: string, data: Payload, options: Option<Options>, ttl: Option<int>, now: int, later: int)
    requires now <= later
    ensures Fresh(NewItem(url, data, options, ttl, now), later) <==> later - now < EffectiveTtl(ttl)
    ensures Fresh(NewItem(url, data, options, ttl, now), now) <==> EffectiveTtl(ttl) > 0
  {
  }

  // The memory tier

  /** `memory_cache`: its keys in insertion order and its entries. */
  datatype MemoryTier = MemoryTier(keys: seq<Key>, items: map<Key, CacheItem>)
  {
    ghost predicate WellFormed()
    {
      NoDup(keys) && forall k :: k in keys <==> k in items
    }
  }

  const EmptyTier := MemoryTier([], map[])

  /** `memory_cache[key] = item`. */
  function Put(m: MemoryTier, key: Key, item: CacheItem): MemoryTier
  {
    MemoryTier(AppendNew(m.keys, key), m.items[key := item])
  }

  /** `del memory_cache[key]`. */
  function Delete(m: MemoryTier, key: Key): MemoryTier
  {
    MemoryTier(Remove(m.keys, key), m.items - {key})
  }

  lemma PutWellFormed(m: MemoryTier, key: Key, item: CacheItem)
    requires m.WellFormed()
    ensures Put(m, key, item).WellFormed()
    ensures |Put(m, key, item).keys| == |m.keys| + (if key in m.items then 0 else 1)
  {
  }

  lemma DeleteWellFormed(m: MemoryTier, key: Key)
    requires m.WellFormed()
    ensures Delete(m, key).WellFormed()
    ensures |Delete(m, key).keys| == |m.keys| - (if key in m.items then 1 else 0)
  {
    RemoveNoDup(m.keys, key);
  }

  /** The position of the key `min(keys, key=created_at)` returns: the first
      of the oldest entries. */
  function Oldest(keys: seq<Key>, items: map<Key, CacheItem>): (i: nat)
    requires |keys| > 0 && forall j :: 0 <= j < |keys| ==> keys[j] in items
    ensures i < |keys|
    ensures forall j :: 0 <= j < |keys| ==> items[keys[i]].createdAt <= items[keys[j]].createdAt
    ensures forall j :: 0 <= j < i ==> items[keys[i]].createdAt < items[keys[j]].createdAt
  {
    if |keys| == 1 then 0
    else
      var front := keys[..|keys| - 1];
      assert forall j :: 0 <= j < |front| ==> front[j] == keys[j];
      var k := Oldest(front, items);
      if items[keys[|keys| - 1]].createdAt < items[front[k]].createdAt then |keys| - 1 else k
  }

  /** `_add_to_memory_cache`: at capacity the oldest entry goes first, then the
      item is stored. */
  function Admit(m: MemoryTier, key: Key, item: CacheItem): MemoryTier
    requires forall k :: k in m.keys ==> k in m.items
  {
    if |m.keys| >= MaxMemoryItems then Put(Delete(m, m.keys[Oldest(m.keys, m.items)]), key, item)
    else Put(m, key, item)
  }

  /** The tier stays well formed and within its capacity. */
  lemma AdmitBounded(m: MemoryTier, key: Key, item: CacheItem)
    requires m.WellFormed() && |m.keys| <= MaxMemoryItems
    ensures Admit(m, key, item).WellFormed() && |Admit(m, key, item).keys| <= MaxMemoryItems
  {
    if |m.keys| >= MaxMemoryItems {
      var victim := m.keys[Oldest(m.keys, m.items)];
      DeleteWellFormed(m, victim);
      PutWellFormed(Delete(m, victim), key, item);
    } else {
      PutWellFormed(m, key, item);
    }
  }

  /** The tier stays within its capacity and holds the new item; every other
      surviving entry is unchanged, and the only entry that can disappear is
      the oldest one, when the tier was full. */
  lemma AdmitProperties(m: MemoryTier, key: Key, item: CacheItem)
    requires m.WellFormed() && |m.keys| <= MaxMemoryItems
    ensures var r := Admit(m, key, item);
      && r.WellFormed()
      && |r.keys| <= MaxMemoryItems
      && key in r.items && r.items[key] == item
      && (forall k :: k in r.items && k != key ==> k in m.items && r.items[k] == m.items[k])
      && (forall k :: k in m.items && k !in r.items ==>
            |m.keys| >= MaxMemoryItems && k == m.keys[Oldest(m.keys, m.items)])
  {
    if |m.keys| >= MaxMemoryItems {
      var victim := m.keys[Oldest(m.keys, m.items)];
      DeleteWellFormed(m, victim);
      PutWellFormed(Delete(m, victim), key, item);
    } else {
      PutWellFormed(m, key, item);
    }
  }

  /** The keys of `keys` whose entries are no longer valid, in order. */
  function ExpiredKeys(keys: seq<Key>, items: map<Key, CacheItem>, now: int): (r: seq<Key>)
    requires forall k :: k in keys ==> k in items
    ensures forall k :: k in r <==> k in keys && !Fresh(items[k], now)
  {
    if |keys| == 0 then []
    else
      var front := keys[..|keys| - 1];
      var last := keys[|keys| - 1];
      assert last in keys;
      assert forall k :: k in keys <==> k in front || k == last;
      ExpiredKeys(front, items, now) + (if Fresh(items[last], now) then [] else [last])
  }

  /** The entries of `m` still valid at `now`. */
  function FreshPart(m: MemoryTier, now: int): MemoryTier
    requires m.WellFormed()
  {
    MemoryTier(Without(m.keys, ExpiredKeys(m.keys, m.items, now)),
               map k | k in m.items && Fresh(m.items[k], now) :: m.items[k])
  }

  /** What `get` returns, without its side effects: a valid memory entry, else
      a valid readable descriptor. */
  function Lookup(m: MemoryTier, disk: map<Key, DiskEntry>, key: Key, now: int): Option<Payload>
  {
    if key in m.items && Fresh(m.items[key], now) then Some(m.items[key].data)
    else if key in disk && disk[key].Stored? && Fresh(disk[key].item, now) then Some(disk[key].item.data)
    else None
  }

  /** `set` followed by `get` at the same instant, with the same URL and
      options, returns the stored data, whatever is on disk, when the
      effective ttl is positive. */
  lemma SetThenGet(digest: (string, Options) -> Key, m: MemoryTier, disk: map<Key, DiskEntry>,
                   url: string, data: Payload, options: Option<Options>, ttl: Option<int>, now: int)
    requires m.WellFormed() && |m.keys| <= MaxMemoryItems
    requires EffectiveTtl(ttl) > 0
    ensures var key := CacheKey(digest, url, options);
      Lookup(Admit(m, key, NewItem(url, data, options, ttl, now)), disk, key, now) == Some(data)
  {
    var key := CacheKey(digest, url, options);
    AdmitProperties(m, key, NewItem(url, data, options, ttl, now));
  }

  /** The first loop of the memory part of `clear_expired`: the expired keys,
      in order. */
  method CollectExpired(m: MemoryTier, now: int) returns (expired: seq<Key>)
    requires m.WellFormed()
    ensures expired == ExpiredKeys(m.keys, m.items, now)
  {
    expired := [];
    var i := 0;
    while i < |m.keys|
      invariant 0 <= i <= |m.keys|
      invariant expired == ExpiredKeys(m.keys[..i], m.items, now)
    {
      assert m.keys[..i + 1][..i] == m.keys[..i];
      assert m.keys[i] in m.keys;
      if !Fresh(m.items[m.keys[i]], now) {
        expired := expired + [m.keys[i]];
      }
      i := i + 1;
    }
    assert m.keys[..i] == m.keys;
  }

  /** The entries of `items` whose keys are not listed in `xs`. */
  function Restrict(items: map<Key, CacheItem>, xs: seq<Key>): map<Key, CacheItem>
  {
    map k | k in items && k !in xs :: items[k]
  }

  /** Excluding one more key is deleting it. */
  lemma RestrictStep(items: map<Key, CacheItem>, xs: seq<Key>, v: Key)
    ensures Restrict(items, xs + [v]) == Restrict(items, xs) - {v}
  {
    assert forall k :: k in xs + [v] <==> k in xs || k == v;
  }

  /** Deleting one more listed key from a tier that already lacks the
      earlier ones. */
  lemma DeleteStep(m: MemoryTier, done: seq<Key>, v: Key)
    ensures Delete(MemoryTier(Without(m.keys, done), Restrict(m.items, done)), v)
            == MemoryTier(Without(m.keys, done + [v]), Restrict(m.items, done + [v]))
  {
    RemoveWithout(m.keys, done, v);
    RestrictStep(m.items, done, v);
  }

  /** The second loop: `del memory_cache[key]` for each listed key. */
  method DeleteKeys(m: MemoryTier, victims: seq<Key>) returns (r: MemoryTier)
    ensures r == MemoryTier(Without(m.keys, victims), Restrict(m.items, victims))
  {
    r := m;
    var j := 0;
    WithoutNothing(m.keys);
    assert Restrict(m.items, []) == m.items;
    while j < |victims|
      invariant 0 <= j <= |victims|
      invariant r == MemoryTier(Without(m.keys, victims[..j]), Restrict(m.items, victims[..j]))
    {
      DeleteStep(m, victims[..j], victims[j]);
      assert victims[..j + 1] == victims[..j] + [victims[j]];
      r := Delete(r, victims[j]);
      j := j + 1;
    }
    assert victims[..j] == victims;
  }

  /** The memory part of `clear_expired`. */
  method DropExpired(m: MemoryTier, now: int) returns (r: MemoryTier, cleared: nat)
    requires m.WellFormed()
    ensures r == FreshPart(m, now)
    ensures cleared == |ExpiredKeys(m.keys, m.items, now)|
  {
    var expired := CollectExpired(m, now);
    r := DeleteKeys(m, expired);
    forall k ensures k in Restrict(m.items, expired) <==> k in FreshPart(m, now).items {
    }
    assert Restrict(m.items, expired) == FreshPart(m, now).items;
    cleared := |expired|;
  }

  /** A descriptor the disk part of `clear_expired` deletes: readable and no
      longer valid. */
  predicate Stale(e: DiskEntry, now: int)
  {
    e.Stored? && !Fresh(e.item, now)
  }

  function StaleKeys(disk: map<Key, DiskEntry>, now: int): set<Key>
  {
    set k | k in disk && Stale(disk[k], now)
  }

  /** The stale keys among `done`. */
  function StaleAmong(disk: map<Key, DiskEntry>, done: set<Key>, now: int): set<Key>
  {
    set k | k in done && k in disk && Stale(disk[k], now)
  }

  /** The descriptors left once the stale ones outside `todo` are gone. */
  function Survivors(disk: map<Key, DiskEntry>, todo: set<Key>, now: int): map<Key, DiskEntry>
  {
    map k | k in disk && (k in todo || !Stale(disk[k], now)) :: disk[k]
  }

  /** Examining one more key: a stale one leaves the survivors and joins
      the stale keys seen. */
  lemma PurgeStep(disk: map<Key, DiskEntry>, todo: set<Key>, done: set<Key>, k: Key, now: int)
    requires k in todo && k in disk
    ensures Stale(disk[k], now) ==>
      Survivors(disk, todo - {k}, now) == Survivors(disk, todo, now) - {k}
      && StaleAmong(disk, done + {k}, now) == StaleAmong(disk, done, now) + {k}
    ensures !Stale(disk[k], now) ==>
      Survivors(disk, todo - {k}, now) == Survivors(disk, todo, now)
      && StaleAmong(disk, done + {k}, now) == StaleAmong(disk, done, now)
  {
  }

  /** The disk part of `clear_expired`: every readable expired descriptor
      goes, with its data file; unreadable files are skipped. */
  method PurgeDisk(disk: map<Key, DiskEntry>, files: set<Key>, now: int)
    returns (disk': map<Key, DiskEntry>, files': set<Key>, cleared: nat)
    ensures disk' == map k | k in disk && !Stale(disk[k], now) :: disk[k]
    ensures files' == files - StaleKeys(disk, now)
    ensures cleared == |StaleKeys(disk, now)|
  {
    disk', files', cleared := disk, files, 0;
    var todo := disk.Keys;
    ghost var done: set<Key> := {};
    assert Survivors(disk, todo, now) == disk;
    while todo != {}
      invariant todo <= disk.Keys && done == disk.Keys - todo
      invariant disk' == Survivors(disk, todo, now)
      invariant files' == files - StaleAmong(disk, done, now)
      invariant cleared == |StaleAmong(disk, done, now)|
      decreases |todo|
    {
      var k :| k in todo;
      PurgeStep(disk, todo, done, k, now);
      if Stale(disk[k], now) {
        assert k !in StaleAmong(disk, done, now);
        disk' := disk' - {k};
        files' := files' - {k};
        cleared := cleared + 1;
      }
      todo := todo - {k};
      done := done + {k};
    }
    assert StaleAmong(disk, done, now) == StaleKeys(disk, now);
    assert Survivors(disk, {}, now) == map k | k in disk && !Stale(disk[k], now) :: disk[k];
  }

  /** The hit rate `get_stats` reports, as a percentage; 0 before any lookup. */
  function HitRate(hits: nat, misses: nat): (r: real)
    ensures 0.0 <= r <= 100.0
    ensures hits + misses == 0 ==> r == 0.0
    ensures misses == 0 && hits > 0 ==> r == 100.0
  {
    if hits + misses > 0 then hits as real / (hits + misses) as real * 100.0 else 0.0
  }

  datatype CacheStats = CacheStats(hits: nat, misses: nat, hitRate: real, memoryCacheSize: nat,
                                   diskCacheSize: nat, totalSize: nat)

  class Cache {
    const digest: (string, Options) -> Key
    var memory: MemoryTier
    var disk: map<Key, DiskEntry>
    var dataFiles: set<Key>
    var hits: nat
    var misses: nat
    /** `cache_stats['size']`: successful `set` calls. */
    var size: nat

    ghost predicate Valid()
      reads this
    {
      memory.WellFormed() && |memory.keys| <= MaxMemoryItems
    }

    /** `CacheManager()` over an empty cache directory. */
    constructor (digest: (string, Options) -> Key)
      ensures this.digest == digest
      ensures memory == EmptyTier && disk == map[] && dataFiles == {}
      ensures hits == 0 && misses == 0 && size == 0
      ensures Valid()
    {
      this.digest := digest;
      memory := EmptyTier;
      disk := map[];
      dataFiles := {};
      hits, misses, size := 0, 0, 0;
    }

    /** `get`. A valid memory entry is a hit; an expired one is deleted. Then a
        readable descriptor is consulted: a valid one is promoted into memory
        and is a hit, an expired one is deleted with its data file. Anything
        else is a miss. Exactly one of the counters rises. */
    method Get(url: string, options: Option<Options>, now: int) returns (r: Option<Payload>)
      requires Valid()
      modifies this
      ensures Valid()
      ensures r == Lookup(old(memory), old(disk), CacheKey(digest, url, options), now)
      ensures r.Some? ==> hits == old(hits) + 1 && misses == old(misses)
      ensures r.None? ==> misses == old(misses) + 1 && hits == old(hits)
      ensures size == old(size)
      ensures var key := CacheKey(digest, url, options);
        var m1 := if key in old(memory.items) then Delete(old(memory), key) else old(memory);
        if key in old(memory.items) && Fresh(old(memory.items)[key], now) then
          memory == old(memory) && disk == old(disk) && dataFiles == old(dataFiles)
        else if key in old(disk) && Stale(old(disk)[key], now) then
          memory == m1 && disk == old(disk) - {key} && dataFiles == old(dataFiles) - {key}
        else if key in old(disk) && old(disk)[key].Stored? then
          memory == Admit(m1, key, old(disk)[key].item) && disk == old(disk) && dataFiles == old(dataFiles)
        else
          memory == m1 && disk == old(disk) && dataFiles == old(dataFiles)
    {
      var key := CacheKey(digest, url, options);
      r := ProbeMemory(key, now);
      if r.None? {
        r := ProbeDisk(key, now);
      }
      if r.Some? {
        hits := hits + 1;
      } else {
        misses := misses + 1;
      }
    }

    /** The memory half of `get`, without the counters: a valid entry is
        returned, an expired one deleted. */
    method ProbeMemory(key: Key, now: int) returns (r: Option<Payload>)
      requires Valid()
      modifies this
      ensures Valid()
      ensures r == if key in old(memory.items) && Fresh(old(memory.items)[key], now)
                   then Some(old(memory.items)[key].data) else None
      ensures memory == if key in old(memory.items) && r.None? then Delete(old(memory), key) else old(memory)
      ensures disk == old(disk) && dataFiles == old(dataFiles)
      ensures hits == old(hits) && misses == old(misses) && size == old(size)
    {
      r := None;
      if key in memory.items {
        if Fresh(memory.items[key], now) {
          return Some(memory.items[key].data);
        }
        DeleteWellFormed(memory, key);
        memory := Delete(memory, key);
      }
    }

    /** The disk half of `get`, without the counters: a valid readable
        descriptor is promoted into memory and returned; an expired one is
        deleted with its data file. */
    method ProbeDisk(key: Key, now: int) returns (r: Option<Payload>)
      requires Valid()
      modifies this
      ensures Valid()
      ensures r == if key in old(disk) && old(disk)[key].Stored? && Fresh(old(disk)[key].item, now)
                   then Some(old(disk)[key].item.data) else None
      ensures r.Some? ==> memory == Admit(old(memory), key, old(disk)[key].item)
                          && disk == old(disk) && dataFiles == old(dataFiles)
      ensures r.None? && key in old(disk) && Stale(old(disk)[key], now) ==>
        memory == old(memory) && disk == old(disk) - {key} && dataFiles == old(dataFiles) - {key}
      ensures r.None? && !(key in old(disk) && Stale(old(disk)[key], now)) ==>
        memory == old(memory) && disk == old(disk) && dataFiles == old(dataFiles)
      ensures hits == old(hits) && misses == old(misses) && size == old(size)
    {
      r := None;
      if key in disk && disk[key].Stored? {
        var item := disk[key].item;
        if Fresh(item, now) {
          AdmitBounded(memory, key, item);
          memory := Admit(memory, key, item);
          return Some(item.data);
        }
        disk := disk - {key};
        dataFiles := dataFiles - {key};
      }
    }

    /** `set`: the item always enters the memory tier. `write` says how far
        writing the descriptor got: the `'w'` open truncates the file before
        `json.dumps` runs, so a write that fails after the open leaves an
        empty descriptor, which `get` cannot read. Only a complete write
        succeeds and is counted. */
    method Set(url: string, data: Payload, options: Option<Options>, ttl: Option<int>, now: int,
               write: WriteOutcome)
      returns (ok: bool)
      requires Valid()
      modifies this
      ensures Valid()
      ensures ok <==> write == Written
      ensures var key := CacheKey(digest, url, options);
        var item := NewItem(url, data, options, ttl, now);
        && memory == Admit(old(memory), key, item)
        && disk == (match write
                    case OpenFailed => old(disk)
                    case WriteFailed => old(disk)[key := Unreadable]
                    case Written => old(disk)[key := Stored(item)])
        && size == old(size) + (if ok then 1 else 0)
      ensures hits == old(hits) && misses == old(misses) && dataFiles == old(dataFiles)
    {
      var key := CacheKey(digest, url, options);
      var item := NewItem(url, data, options, ttl, now);
      AdmitBounded(memory, key, item);
      memory := Admit(memory, key, item);
      match write {
        case OpenFailed =>
          ok := false;
        case WriteFailed =>
          disk := disk[key := Unreadable];
          ok := false;
        case Written =>
          disk := disk[key := Stored(item)];
          size := size + 1;
          ok := true;
      }
    }

    /** `cache_file`: `fileSize` is the size of the file to copy, `None` when it
        does not exist; `copy` says how far the copy got. The `'wb'` open of
        the destination creates or truncates the data file before the source
        is read, so a copy that fails after it still leaves a data file, which
        `get_cached_file` then reports. */
    method CacheFile(key: Key, fileSize: Option<nat>, copy: WriteOutcome) returns (ok: bool)
      modifies this
      ensures ok <==> fileSize.Some? && fileSize.value <= MaxFileSize && copy == Written
      ensures dataFiles == if fileSize.Some? && fileSize.value <= MaxFileSize && copy != OpenFailed
                           then old(dataFiles) + {key} else old(dataFiles)
      ensures memory == old(memory) && disk == old(disk)
      ensures hits == old(hits) && misses == old(misses) && size == old(size)
    {
      if fileSize.None? || fileSize.value > MaxFileSize || copy == OpenFailed {
        return false;
      }
      dataFiles := dataFiles + {key};
      ok := copy == Written;
    }

    /** `get_cached_file`: the key of the data file, standing for its path,
        when the file exists. */
    method GetCachedFile(key: Key) returns (r: Option<Key>)
      ensures r.Some? <==> key in dataFiles
      ensures r.Some? ==> r.value == key
    {
      if key in dataFiles {
        return Some(key);
      }
      return None;
    }

    /** `clear_expired`: the memory tier keeps exactly its valid entries, in
        order; readable expired descriptors and their data files go.
        `cleared` is the count the method logs. */
    method ClearExpired(now: int) returns (cleared: nat)
      requires Valid()
      modifies this
      ensures Valid()
      ensures memory == FreshPart(old(memory), now)
      ensures disk == map k | k in old(disk) && !Stale(old(disk)[k], now) :: old(disk)[k]
      ensures dataFiles == old(dataFiles) - StaleKeys(old(disk), now)
      ensures cleared == |ExpiredKeys(old(memory).keys, old(memory).items, now)| + |StaleKeys(old(disk), now)|
      ensures hits == old(hits) && misses == old(misses) && size == old(size)
    {
      FreshPartProperties(memory, now);
      var m, fromMemory := DropExpired(memory, now);
      var d, files, fromDisk := PurgeDisk(disk, dataFiles, now);
      memory, disk, dataFiles := m, d, files;
      cleared := fromMemory + fromDisk;
    }

    /** `clear_all`. */
    method ClearAll()
      modifies this
      ensures Valid()
      ensures memory == EmptyTier && disk == map[] && dataFiles == {}
      ensures hits == 0 && misses == 0 && size == 0
    {
      memory := EmptyTier;
      disk := map[];
      dataFiles := {};
      hits, misses, size := 0, 0, 0;
    }

    /** `get_stats`. */
    method GetStats() returns (s: CacheStats)
      ensures s == CacheStats(hits, misses, HitRate(hits, misses), |memory.keys|, |disk|, size)
    {
      s := CacheStats(hits, misses, HitRate(hits, misses), |memory.keys|, |disk|, size);
    }
  }

  /** The valid part of a tier is a well-formed tier no larger than it, whose
      keys are exactly the valid ones. */
  lemma FreshPartProperties(m: MemoryTier, now: int)
    requires m.WellFormed()
    ensures FreshPart(m, now).WellFormed()
    ensures |FreshPart(m, now).keys| <= |m.keys|
    ensures forall k :: k in FreshPart(m, now).items <==> k in m.items && Fresh(m.items[k], now)
  {
    WithoutNoDup(m.keys, ExpiredKeys(m.keys, m.items, now));
  }
}
