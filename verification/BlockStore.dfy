/** The block pool and its prefix cache: who holds each block, reference counts, and least-recently
    released eviction. */
module BlockStore {
  import opened GreedyTrajectory
  import opened Prelude

  /** The bytes of a digest. */
  type Digest = seq<int>

  datatype Entry = Entry(block: nat, tokens: seq<Token>, refcount: nat)

  /** The prefix cache. `evictable` lists the unreferenced blocks, the longest unreferenced first. */
  datatype Index = Index(entries: map<Digest, Entry>, digestOf: map<nat, Digest>, evictable: seq<nat>)

  /** The pool: free blocks, and the blocks that the prefix cache keeps. */
  datatype Store = Store(free: seq<nat>, index: Index)

  ghost predicate NoDuplicates(s: seq<nat>)
  {
    forall i, j :: 0 <= i < j < |s| ==> s[i] != s[j]
  }

  /** The two directories of the prefix cache point at each other. */
  ghost predicate Linked(x: Index)
  {
    && (forall b :: b in x.digestOf ==> x.digestOf[b] in x.entries && x.entries[x.digestOf[b]].block == b)
    && (forall h :: h in x.entries ==> x.entries[h].block in x.digestOf && x.digestOf[x.entries[h].block] == h)
    && forall b :: b in x.evictable ==> b in x.digestOf
  }

  /** Block `b` is free, or cached with one reference per holder and evictable without any, or
      private to one holder. `held` counts the places of all block tables that name a block. */
  ghost predicate BlockOk(n: nat, st: Store, held: multiset<nat>, b: nat)
  {
    var x := st.index;
    if b in st.free then b < n && held[b] == 0 && b !in x.digestOf
    else if b in x.digestOf then
      b < n && x.digestOf[b] in x.entries && x.entries[x.digestOf[b]].refcount == held[b]
        && (b in x.evictable <==> held[b] == 0)
    else held[b] == if b < n then 1 else 0
  }

  ghost predicate Accounted(n: nat, st: Store, held: multiset<nat>)
  {
    && NoDuplicates(st.free) && NoDuplicates(st.index.evictable) && Linked(st.index)
    && forall b: nat :: BlockOk(n, st, held, b)
  }

  // ---- operations -------------------------------------------------------------------------

  /** Takes a free block, else evicts the block unreferenced longest; fails if there is neither. */
  function Taken(st: Store): (r: Option<(Store, nat)>)
    requires Linked(st.index)
  {
    var x := st.index;
    if st.free != [] then Some((st.(free := st.free[..|st.free| - 1]), st.free[|st.free| - 1]))
    else if x.evictable == [] then None
    else Some((st.(index := Evicted(x)), x.evictable[0]))
  }

  function Evicted(x: Index): (y: Index)
    requires Linked(x) && x.evictable != []
  {
    var b := x.evictable[0];
    Index(x.entries - {x.digestOf[b]}, x.digestOf - {b}, x.evictable[1..])
  }

  function Without(s: seq<nat>, b: nat): (r: seq<nat>)
  {
    if s == [] then [] else if s[0] == b then s[1..] else [s[0]] + Without(s[1..], b)
  }

  /** Fails on a block that is not cached. */
  function Referenced(x: Index, b: nat): (r: Option<Index>)
    requires Linked(x)
  {
    if b !in x.digestOf then None
    else
      var h := x.digestOf[b];
      var e := x.entries[h];
      Some(Index(x.entries[h := e.(refcount := e.refcount + 1)], x.digestOf,
                 if e.refcount == 0 then Without(x.evictable, b) else x.evictable))
  }

  /** Fails on a block that is not cached, or has no reference left. */
  function Dereferenced(x: Index, b: nat): (r: Option<Index>)
    requires Linked(x)
  {
    if b !in x.digestOf || x.entries[x.digestOf[b]].refcount == 0 then None
    else
      var h := x.digestOf[b];
      var e := x.entries[h];
      Some(Index(x.entries[h := e.(refcount := e.refcount - 1)], x.digestOf,
                 if e.refcount == 1 && b !in x.evictable then x.evictable + [b] else x.evictable))
  }

  /** Gives a block back: a cached one loses a reference, any other becomes free. */
  function Released(st: Store, b: nat): (r: Option<Store>)
    requires Linked(st.index)
  {
    if b in st.index.digestOf then
      match Dereferenced(st.index, b)
      case Some(x) => Some(st.(index := x))
      case None => None
    else Some(st.(free := st.free + [b]))
  }

  /** Registers a filled block under its digest. If the digest is known, its block gets the reference
      instead; fails if it is known for other tokens. */
  function Published(x: Index, h: Digest, tokens: seq<Token>, b: nat): (r: Option<(Index, nat, bool)>)
    requires Linked(x)
  {
    if h in x.entries then
      var e := x.entries[h];
      if e.tokens != tokens then None
      else
        match Referenced(x, e.block)
        case Some(x') => Some((x', e.block, true))
        case None => None
    else Some((Index(x.entries[h := Entry(b, tokens, 1)], x.digestOf[b := h], x.evictable), b, false))
  }

  // ---- what they keep ---------------------------------------------------------------------

  /** Only reference counts and eviction order differ. */
  ghost predicate SameEntries(x: Index, y: Index)
  {
    && x.digestOf == y.digestOf && x.entries.Keys == y.entries.Keys
    && forall h :: h in x.entries ==>
      x.entries[h].block == y.entries[h].block && x.entries[h].tokens == y.entries[h].tokens
  }

  lemma {:induction false} WithoutMembers(s: seq<nat>, b: nat)
    requires NoDuplicates(s)
    ensures NoDuplicates(Without(s, b)) && forall y :: y in Without(s, b) <==> y in s && y != b
    decreases |s|
  {
    if s != [] {
      WithoutMembers(s[1..], b);
      assert s == [s[0]] + s[1..] && s[0] !in s[1..];
    }
  }

  /** Only the first place of `b` goes; the others stay in order. */
  lemma {:induction false} WithoutIs(s: seq<nat>, b: nat, i: nat)
    requires i <= |s| && (i < |s| ==> s[i] == b) && b !in s[..i]
    ensures Without(s, b) == s[..i] + if i < |s| then s[i + 1..] else []
    decreases i
  {
    if i > 0 {
      assert s[0] == s[..i][0] && s[1..][..i - 1] == s[..i][1..];
      WithoutIs(s[1..], b, i - 1);
    }
  }

  /** An allocated block was held by nobody. Free blocks go first, the one freed last before the others,
      and nothing cached is touched; without any the block longest unreferenced is evicted, and only
      that one is forgotten. */
  lemma AllocateKeeps(n: nat, st: Store, held: multiset<nat>)
    requires Accounted(n, st, held)
    ensures match Taken(st)
            case None => forall b: nat :: b !in st.free && b !in st.index.evictable
            case Some((st', b)) =>
              && b < n && held[b] == 0 && Accounted(n, st', held + multiset{b})
              && (st.free != [] ==> st.free == st'.free + [b] && st'.index == st.index)
              && (st.free == [] ==> st'.free == [] && st.index.evictable == [b] + st'.index.evictable
                                    && st'.index.entries.Keys == st.index.entries.Keys - {st.index.digestOf[b]})
              && st'.index.digestOf == st.index.digestOf - {b}
              && forall h :: h in st'.index.entries ==>
                h in st.index.entries && st'.index.entries[h] == st.index.entries[h]
  {
    var x := st.index;
    if st.free != [] {
      var b, rest := st.free[|st.free| - 1], st.free[..|st.free| - 1];
      assert st.free == rest + [b];
      assert BlockOk(n, st, held, b);
      var st', held' := st.(free := rest), held + multiset{b};
      forall c: nat ensures BlockOk(n, st', held', c) {
        assert BlockOk(n, st, held, c);
      }
    } else if x.evictable != [] {
      var b, rest := x.evictable[0], x.evictable[1..];
      assert x.evictable == [b] + rest;
      assert BlockOk(n, st, held, b);
      var st', held' := Taken(st).value.0, held + multiset{b};
      forall c: nat ensures BlockOk(n, st', held', c) {
        assert BlockOk(n, st, held, c);
      }
    }
  }

  lemma IncrefKeeps(n: nat, st: Store, held: multiset<nat>, b: nat)
    requires Accounted(n, st, held) && b in st.index.digestOf
    ensures Referenced(st.index, b).Some?
    ensures var x := Referenced(st.index, b).value;
        Accounted(n, st.(index := x), held + multiset{b}) && SameEntries(st.index, x)
  {
    assert BlockOk(n, st, held, b);
    WithoutMembers(st.index.evictable, b);
    var st', held' := st.(index := Referenced(st.index, b).value), held + multiset{b};
    forall c: nat ensures BlockOk(n, st', held', c) {
      assert BlockOk(n, st, held, c);
    }
  }

  /** A block that gets its first reference leaves the eviction order, and the others stay in theirs. */
  lemma IncrefOrder(n: nat, st: Store, held: multiset<nat>, b: nat, i: nat)
    requires Accounted(n, st, held) && b in st.index.digestOf
    requires i < |st.index.evictable| && st.index.evictable[i] == b
    ensures Referenced(st.index, b).Some?
    ensures Referenced(st.index, b).value.evictable == st.index.evictable[..i] + st.index.evictable[i + 1..]
  {
    assert BlockOk(n, st, held, b);
    WithoutIs(st.index.evictable, b, i);
  }

  /** Any other reference leaves the order as it is. */
  lemma IncrefHeld(n: nat, st: Store, held: multiset<nat>, b: nat)
    requires Accounted(n, st, held) && b in st.index.digestOf && held[b] > 0
    ensures Referenced(st.index, b).Some? && Referenced(st.index, b).value.evictable == st.index.evictable
  {
    assert BlockOk(n, st, held, b);
  }

  /** Giving back a block that is held never fails: there is no double free. */
  lemma ReleaseKeeps(n: nat, st: Store, held: multiset<nat>, b: nat)
    requires Accounted(n, st, held) && held[b] > 0
    ensures Released(st, b).Some?
    ensures var st' := Released(st, b).value; Accounted(n, st', held - multiset{b}) && SameEntries(st.index, st'.index)
    ensures var st' := Released(st, b).value;
            if b in st.index.digestOf then
              st'.free == st.free && st'.index.evictable == st.index.evictable + (if held[b] == 1 then [b] else [])
            else st'.free == st.free + [b] && st'.index == st.index
  {
    assert BlockOk(n, st, held, b);
    var st', held' := Released(st, b).value, held - multiset{b};
    forall c: nat ensures BlockOk(n, st', held', c) {
      assert BlockOk(n, st, held, c);
    }
  }

  /** A cached block that loses its last holder is evicted after all those that lost theirs before. */
  lemma ReleasedIsEvictedLast(n: nat, st: Store, held: multiset<nat>, b: nat)
    requires Accounted(n, st, held) && b in st.index.digestOf && held[b] == 1
    ensures var r := Released(st, b); r.Some? && r.value.index.evictable == st.index.evictable + [b]
  {
    assert BlockOk(n, st, held, b);
  }

  /** A private block that is published keeps its one holder; a known digest adds a holder to its own
      block instead. */
  lemma PublishKeeps(n: nat, st: Store, held: multiset<nat>, h: Digest, tokens: seq<Token>, b: nat)
    requires Accounted(n, st, held) && held[b] == 1 && b !in st.index.digestOf
    requires h in st.index.entries ==> st.index.entries[h].tokens == tokens
    ensures Published(st.index, h, tokens, b).Some?
    ensures var (x, c, duplicate) := Published(st.index, h, tokens, b).value;
            && duplicate == (h in st.index.entries)
            && if duplicate then
              c == st.index.entries[h].block && Accounted(n, st.(index := x), held + multiset{c})
                && SameEntries(st.index, x)
            else
              c == b && Accounted(n, st.(index := x), held) && x.evictable == st.index.evictable
              && x.digestOf == st.index.digestOf[b := h] && x.entries == st.index.entries[h := Entry(b, tokens, 1)]
  {
    assert BlockOk(n, st, held, b);
    if h in st.index.entries {
      IncrefKeeps(n, st, held, st.index.entries[h].block);
    } else {
      var st' := st.(index := Published(st.index, h, tokens, b).value.0);
      assert b !in st.index.evictable;
      forall c: nat ensures BlockOk(n, st', held, c) {
        assert BlockOk(n, st, held, c);
      }
    }
  }

  /** Every block of the pool is in exactly one place, so none is lost and none is handed out twice. */
  lemma BlocksArePartitioned(n: nat, st: Store, held: multiset<nat>, b: nat)
    requires Accounted(n, st, held) && b < n
    ensures b in st.free || b in st.index.digestOf || held[b] == 1
    ensures b in st.free ==> b !in st.index.digestOf && held[b] == 0
    ensures held[b] == 0 ==> b in st.free || b in st.index.evictable
    ensures b in st.index.evictable ==> b in st.index.digestOf && held[b] == 0
    ensures b in st.index.digestOf ==> st.index.entries[st.index.digestOf[b]].refcount == held[b]
  {
    assert BlockOk(n, st, held, b);
  }

  /** The errors: a reference to a block that is not cached, giving one back that is not cached or has
      none left, and a digest that is known for other tokens. */
  lemma RefusedExactly(x: Index, h: Digest, tokens: seq<Token>, b: nat)
    requires Linked(x)
    ensures Referenced(x, b).None? <==> b !in x.digestOf
    ensures Dereferenced(x, b).None? <==> b !in x.digestOf || x.entries[x.digestOf[b]].refcount == 0
    ensures Published(x, h, tokens, b).None? <==> h in x.entries && x.entries[h].tokens != tokens
  {
  }

  // ---- the objects ------------------------------------------------------------------------

  /** A full block of a prompt, as the prefix cache looks it up. */
  datatype Key = Key(digest: Digest, tokens: seq<Token>)

  /** The cached blocks of the longest run of leading keys that the cache knows. */
  function Found(x: Index, keys: seq<Key>): (blocks: seq<nat>)
  {
    if keys == [] || keys[0].digest !in x.entries || x.entries[keys[0].digest].tokens != keys[0].tokens then []
    else [x.entries[keys[0].digest].block] + Found(x, keys[1..])
  }

  /** The cache knows the key, and for these tokens. */
  predicate Known(x: Index, key: Key)
  {
    key.digest in x.entries && x.entries[key.digest].tokens == key.tokens
  }

  /** `blocks` are those of the first keys, all of which are known, and the next key is not. */
  ghost predicate LongestKnown(x: Index, keys: seq<Key>, blocks: seq<nat>)
  {
    && |blocks| <= |keys|
    && (forall i :: 0 <= i < |blocks| ==>
          && keys[i].digest in x.entries && x.entries[keys[i].digest].tokens == keys[i].tokens
          && blocks[i] == x.entries[keys[i].digest].block)
    && (|blocks| < |keys| ==>
          var key := keys[|blocks|];
          key.digest !in x.entries || x.entries[key.digest].tokens != key.tokens)
  }

  /** The run of known keys is the longest, and nothing else is. */
  lemma {:induction false} FoundIsLongest(x: Index, keys: seq<Key>, blocks: seq<nat>)
    ensures LongestKnown(x, keys, Found(x, keys))
    ensures LongestKnown(x, keys, blocks) ==> blocks == Found(x, keys)
    decreases |keys|
  {
    if keys != [] && Known(x, keys[0]) {
      var rest := if blocks == [] then [] else blocks[1..];
      FoundIsLongest(x, keys[1..], rest);
      LongestOfMore(x, keys, Found(x, keys[1..]));
      if LongestKnown(x, keys, blocks) {
        assert blocks == [blocks[0]] + rest;
        LongestOfFewer(x, keys, blocks);
      }
    }
  }

  lemma LongestOfMore(x: Index, keys: seq<Key>, rest: seq<nat>)
    requires keys != [] && Known(x, keys[0]) && LongestKnown(x, keys[1..], rest)
    ensures LongestKnown(x, keys, [x.entries[keys[0].digest].block] + rest)
  {
    var blocks := [x.entries[keys[0].digest].block] + rest;
    forall i | 0 <= i < |blocks|
      ensures Known(x, keys[i]) && blocks[i] == x.entries[keys[i].digest].block
    {
      if i > 0 { assert keys[i] == keys[1..][i - 1] && blocks[i] == rest[i - 1]; }
    }
  }

  lemma LongestOfFewer(x: Index, keys: seq<Key>, blocks: seq<nat>)
    requires keys != [] && blocks != [] && LongestKnown(x, keys, blocks)
    ensures LongestKnown(x, keys[1..], blocks[1..])
  {
  }

  class PrefixCache {
    var entries: map<Digest, Entry>
    var blockToDigest: map<nat, Digest>
    var evictable: seq<nat>

    ghost function Value(): (x: Index)
      reads this
    {
      Index(entries, blockToDigest, evictable)
    }

    constructor ()
      ensures Value() == Index(map[], map[], [])
    {
      entries, blockToDigest, evictable := map[], map[], [];
    }

    method Lookup(keys: seq<Key>) returns (blocks: seq<nat>)
      ensures blocks == Found(Value(), keys)
      ensures |blocks| <= |keys|
      ensures forall i :: 0 <= i < |blocks| ==>
                && keys[i].digest in entries && entries[keys[i].digest].tokens == keys[i].tokens
                && blocks[i] == entries[keys[i].digest].block
      ensures |blocks| < |keys| ==>
                keys[|blocks|].digest !in entries || entries[keys[|blocks|].digest].tokens != keys[|blocks|].tokens
    {
      hide Found;
      blocks := [];
      var i := 0;
      while i < |keys| && keys[i].digest in entries && entries[keys[i].digest].tokens == keys[i].tokens
        invariant i == |blocks| <= |keys|
        invariant forall j :: 0 <= j < i ==>
          && keys[j].digest in entries && entries[keys[j].digest].tokens == keys[j].tokens
          && blocks[j] == entries[keys[j].digest].block
      {
        blocks := blocks + [entries[keys[i].digest].block];
        i := i + 1;
      }
      FoundIsLongest(Value(), keys, blocks);
    }

    method Publish(h: Digest, tokens: seq<Token>, b: nat) returns (canonical: Option<nat>, duplicate: bool)
      requires Linked(Value())
      modifies this
      ensures match Published(old(Value()), h, tokens, b)
              case Some((x, c, d)) => Value() == x && canonical == Some(c) && duplicate == d
              case None => Value() == old(Value()) && canonical == None
    {
      if h in entries {
        if entries[h].tokens != tokens {
          return None, true;
        }
        var c := entries[h].block;
        var known := Incref(c);
        return Some(c), true;
      }
      entries := entries[h := Entry(b, tokens, 1)];
      blockToDigest := blockToDigest[b := h];
      return Some(b), false;
    }

    method Incref(b: nat) returns (ok: bool)
      requires Linked(Value())
      modifies this
      ensures match Referenced(old(Value()), b)
              case Some(x) => Value() == x && ok
              case None => Value() == old(Value()) && !ok
    {
      if b !in blockToDigest {
        return false;
      }
      var e := entries[blockToDigest[b]];
      if e.refcount == 0 {
        evictable := Without(evictable, b);
      }
      entries := entries[blockToDigest[b] := e.(refcount := e.refcount + 1)];
      return true;
    }

    method Decref(b: nat) returns (ok: bool)
      requires Linked(Value())
      modifies this
      ensures match Dereferenced(old(Value()), b)
              case Some(x) => Value() == x && ok
              case None => Value() == old(Value()) && !ok
    {
      if b !in blockToDigest || entries[blockToDigest[b]].refcount == 0 {
        return false;
      }
      var e := entries[blockToDigest[b]];
      entries := entries[blockToDigest[b] := e.(refcount := e.refcount - 1)];
      if e.refcount == 1 && b !in evictable {
        evictable := evictable + [b];
      }
      return true;
    }

    method EvictLru() returns (block: Option<nat>)
      requires Linked(Value())
      modifies this
      ensures block == if old(evictable) == [] then None else Some(old(evictable)[0])
      ensures Value() == if old(evictable) == [] then old(Value())
                         else Evicted(old(Value()))
    {
      if evictable == [] {
        return None;
      }
      var b := evictable[0];
      evictable := evictable[1..];
      entries, blockToDigest := entries - {blockToDigest[b]}, blockToDigest - {b};
      return Some(b);
    }
  }

  class BlockPool {
    const prefixCache: PrefixCache
    const caching: bool
    var freeList: seq<nat>

    ghost function Value(): (st: Store)
      reads this, prefixCache
    {
      Store(freeList, prefixCache.Value())
    }

    constructor (numBlocks: nat, caching: bool)
      ensures fresh(prefixCache) && this.caching == caching
      ensures Accounted(numBlocks, Value(), multiset{}) && Value().index == Index(map[], map[], [])
    {
      this.caching := caching;
      prefixCache := new PrefixCache();
      freeList := seq(numBlocks, i => i);
      new;
      forall b: nat ensures b in freeList <==> b < numBlocks {
        if b < numBlocks { assert freeList[b] == b; }
      }
    }

    method Allocate() returns (block: Option<nat>)
      requires Linked(Value().index)
      modifies this, prefixCache
      ensures match Taken(old(Value()))
              case Some((st, b)) => Value() == st && block == Some(b)
              case None => Value() == old(Value()) && block == None
      ensures old(freeList) != [] ==>
                && block.Some? && old(freeList) == freeList + [block.value]
                && prefixCache.Value() == old(prefixCache.Value())
      ensures old(freeList) == [] && old(prefixCache.evictable) != [] ==>
                block.Some? && freeList == [] && old(prefixCache.evictable) == [block.value] + prefixCache.evictable
      ensures block == None <==> old(freeList) == [] && old(prefixCache.evictable) == []
    {
      if freeList != [] {
        block := Some(freeList[|freeList| - 1]);
        freeList := freeList[..|freeList| - 1];
      } else {
        block := prefixCache.EvictLru();
      }
    }

    method Free(b: nat) returns (ok: bool)
      requires Linked(Value().index)
      modifies this, prefixCache
      ensures match Released(old(Value()), b)
              case Some(st) => Value() == st && ok
              case None => Value() == old(Value()) && !ok
    {
      if b in prefixCache.blockToDigest {
        ok := prefixCache.Decref(b);
      } else {
        freeList := freeList + [b];
        ok := true;
      }
    }
  }
}
