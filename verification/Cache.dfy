/** The cache of configurations, a hash table from the hash of a bitset to the entries with that hash. */
module Cache {
  import opened Linearizability
  import opened Bitset

  datatype CacheEntry<S> = CacheEntry(linearized: array<bv64>, state: S)

  type Table<S> = map<nat, seq<CacheEntry<S>>>

  /** The hash as a table key. */
  function Key(hash: bv64): nat
  {
    hash as int
  }

  ghost function Entries<S>(cache: Table<S>): set<CacheEntry<S>>
  {
    set k, i | k in cache && 0 <= i < |cache[k]| :: cache[k][i]
  }

  ghost function Arrays<S>(cache: Table<S>): set<array<bv64>>
  {
    set e | e in Entries(cache) :: e.linearized
  }

  /** Every entry is in the bucket of its hash, and all bitsets have the same number of words. */
  ghost predicate Bucketed<S>(cache: Table<S>, words: nat)
    reads Arrays(cache)
  {
    forall k, i | k in cache && 0 <= i < |cache[k]| ::
      cache[k][i] in Entries(cache) && cache[k][i].linearized.Length == words
          && Key(HashOf(cache[k][i].linearized[..])) == k
  }

  ghost predicate SameConfig<S, V>(m: Model<S, V>, entry: CacheEntry<S>, e: CacheEntry<S>)
    reads entry.linearized, e.linearized
  {
    Members(entry.linearized[..]) == Members(e.linearized[..]) && m.equal(entry.state, e.state)
  }

  /** Looking in one bucket answers for the whole table: a hash collision never changes the answer,
      and an entry for the same set is never missed. */
  method CacheContains<S, V>(m: Model<S, V>, cache: Table<S>, entry: CacheEntry<S>) returns (found: bool)
    requires Bucketed(cache, entry.linearized.Length)
    ensures found <==> exists e | e in Entries(cache) :: SameConfig(m, entry, e)
  {
    hide HashOf, Key, Members;
    var h := Hash(entry.linearized);
    var hash := Key(h);
    if hash in cache {
      var bucket := cache[hash];
      for i := 0 to |bucket|
        invariant forall j | 0 <= j < i :: !SameConfig(m, entry, bucket[j])
      {
        var elem := bucket[i];
        assert elem == cache[hash][i] && elem in Entries(cache);
        var same := Equals(entry.linearized, elem.linearized);
        if same && m.equal(entry.state, elem.state) {
          assert SameConfig(m, entry, elem);
          return true;
        }
      }
    }
    forall e | e in Entries(cache)
      ensures !SameConfig(m, entry, e)
    {
      var k, i :| k in cache && 0 <= i < |cache[k]| && cache[k][i] == e;
      if Members(entry.linearized[..]) == Members(e.linearized[..]) {
        EqualSetsHashEqually(entry.linearized[..], e.linearized[..]);
      }
    }
    return false;
  }

  function Insert<S>(cache: Table<S>, hash: nat, entry: CacheEntry<S>): Table<S>
  {
    cache[hash := (if hash in cache then cache[hash] else []) + [entry]]
  }

  lemma InsertEntries<S>(cache: Table<S>, hash: nat, entry: CacheEntry<S>)
    ensures Entries(Insert(cache, hash, entry)) == Entries(cache) + {entry}
  {
    var more := Insert(cache, hash, entry);
    forall e | e in Entries(cache)
      ensures e in Entries(more)
    {
      var k, i :| k in cache && 0 <= i < |cache[k]| && cache[k][i] == e;
      assert more[k][i] == e;
    }
    assert more[hash][|more[hash]| - 1] == entry;
  }

  lemma InsertBucketed<S>(cache: Table<S>, hash: nat, entry: CacheEntry<S>)
    requires Bucketed(cache, entry.linearized.Length) && hash == Key(HashOf(entry.linearized[..]))
    ensures Bucketed(Insert(cache, hash, entry), entry.linearized.Length)
  {
    hide HashOf, Key, Members;
    InsertEntries(cache, hash, entry);
    var more := Insert(cache, hash, entry);
    forall k, i | k in more && 0 <= i < |more[k]|
      ensures more[k][i] in Entries(more) && more[k][i].linearized.Length == entry.linearized.Length
      ensures Key(HashOf(more[k][i].linearized[..])) == k
    {
      if k in cache && i < |cache[k]| {
        assert more[k][i] == cache[k][i];
      } else {
        assert more[k][i] == entry;
      }
    }
  }
}
