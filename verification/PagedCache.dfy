/** The paged key/value cache: requests read their keys and values through block tables, and share
    the full blocks of common prompts. Whatever is added, appended, rolled back or removed, every
    request keeps reading exactly its own sequence. */
module PagedCache {
  import opened Blocks
  import opened BlockStore
  import opened GreedyTrajectory
  import opened Prelude

  /** The key/value row of one position: a function of every token up to it. */
  type Row = seq<Token>

  /** Block size, hash of byte strings, and the prompts that requests ever come with. */
  datatype Config = Config(blockSize: nat, hash: seq<int> -> Digest, asked: seq<Token> -> bool)

  /** A request. `fed` is history: the tokens whose rows are written. */
  datatype Slot = Slot(blocks: seq<nat>, numTokens: nat, prompt: seq<Token>, published: nat, parent: Option<Digest>,
                       fed: seq<Token>)

  // ---- positions and blocks ---------------------------------------------------------------

  /** Where block `i` of a request starts. */
  function Start(cfg: Config, i: nat): (p: nat)
  {
    i * cfg.blockSize
  }

  lemma StartStep(cfg: Config, i: nat)
    ensures Start(cfg, i + 1) == Start(cfg, i) + cfg.blockSize && Start(cfg, 0) == 0
  {
  }

  lemma StartOrder(cfg: Config, i: nat, j: nat)
    requires i < j
    ensures Start(cfg, i) + cfg.blockSize <= Start(cfg, j)
  {
    if cfg.blockSize > 0 { Ordered(i, j, cfg.blockSize); } else { StartStep(cfg, i); }
  }

  /** A position is one offset of one block. */
  lemma PositionIsUnique(cfg: Config, i: nat, o: nat, j: nat, p: nat)
    requires o < cfg.blockSize && p < cfg.blockSize && Start(cfg, i) + o == Start(cfg, j) + p
    ensures i == j && o == p
  {
    hide Start;
    if i < j { StartOrder(cfg, i, j); }
    if j < i { StartOrder(cfg, j, i); }
  }

  /** The block and the offset of position `p`. */
  function BlockAt(cfg: Config, p: nat): (i: nat)
    requires cfg.blockSize >= 1
  {
    p / cfg.blockSize
  }

  function OffsetAt(cfg: Config, p: nat): (o: nat)
    requires cfg.blockSize >= 1
    ensures o < cfg.blockSize
  {
    p % cfg.blockSize
  }

  lemma PositionSplits(cfg: Config, p: nat)
    requires cfg.blockSize >= 1
    ensures p == Start(cfg, BlockAt(cfg, p)) + OffsetAt(cfg, p)
  {
  }

  lemma CeilDivCovers(cfg: Config, n: nat, m: nat)
    requires cfg.blockSize >= 1
    ensures CeilDiv(n, cfg.blockSize) <= m <==> n <= Start(cfg, m)
  {
    var c := CeilDiv(n, cfg.blockSize);
    CeilDivBounds(n, cfg.blockSize);
    if c < m { Ordered(c, m, cfg.blockSize); }
    if m < c { Ordered(m, c, cfg.blockSize); }
  }

  // ---- digests ----------------------------------------------------------------------------

  function BlockTokens(cfg: Config, s: seq<Token>, i: nat): (tokens: seq<Token>)
    requires Start(cfg, i) + cfg.blockSize <= |s|
  {
    s[Start(cfg, i)..Start(cfg, i) + cfg.blockSize]
  }

  /** A token as four bytes, the lowest first. */
  function TokenBytes(t: Token): (bytes: seq<int>)
    ensures |bytes| == 4
  {
    [t % 256, t / 256 % 256, t / 65536 % 256, t / 16777216]
  }

  function AllBytes(tokens: seq<Token>): (bytes: seq<int>)
    ensures |bytes| == 4 * |tokens|
  {
    if tokens == [] then [] else AllBytes(tokens[..|tokens| - 1]) + TokenBytes(tokens[|tokens| - 1])
  }

  /** What is hashed for a block: the digest of its parent, if any, and its tokens, with nothing
      between them. */
  function Message(parent: Option<Digest>, tokens: seq<Token>): (bytes: seq<int>)
  {
    (if parent.Some? then parent.value else []) + AllBytes(tokens)
  }

  function HashBlock(cfg: Config, parent: Option<Digest>, tokens: seq<Token>): (h: Digest)
  {
    cfg.hash(Message(parent, tokens))
  }

  /** The chained digest of the first `k` blocks of `s`. */
  function Chain(cfg: Config, s: seq<Token>, k: nat): (h: Option<Digest>)
    requires Start(cfg, k) <= |s|
  {
    if k == 0 then None
    else
      StartStep(cfg, k - 1);
      Some(HashBlock(cfg, Chain(cfg, s, k - 1), BlockTokens(cfg, s, k - 1)))
  }

  /** What is hashed for block `i` of `s`. */
  function BlockMessage(cfg: Config, s: seq<Token>, i: nat): (bytes: seq<int>)
    requires Start(cfg, i) + cfg.blockSize <= |s|
  {
    Message(Chain(cfg, s, i), BlockTokens(cfg, s, i))
  }

  /** A full block of a prompt that some request comes with. */
  predicate Asked(cfg: Config, s: seq<Token>, i: nat)
  {
    cfg.asked(s) && Start(cfg, i) + cfg.blockSize <= |s|
  }

  /** Tokens fit into four bytes. */
  ghost predicate InRange(s: seq<Token>)
  {
    forall i :: 0 <= i < |s| ==> 0 <= s[i] < 0x1_0000_0000
  }

  /** No two of the messages that are ever hashed collide. */
  ghost predicate NoCollision(cfg: Config)
  {
    forall s, i: nat, t, j: nat :: Asked(cfg, s, i) && Asked(cfg, t, j) ==>
      cfg.hash(BlockMessage(cfg, s, i)) == cfg.hash(BlockMessage(cfg, t, j)) ==>
        BlockMessage(cfg, s, i) == BlockMessage(cfg, t, j)
  }

  const DIGEST_BYTES := 16

  ghost predicate Sound(cfg: Config)
  {
    && cfg.blockSize >= 1 && (forall m :: |cfg.hash(m)| == DIGEST_BYTES)
    && (forall s :: cfg.asked(s) ==> InRange(s)) && NoCollision(cfg)
  }

  /** The four bytes spell the token. */
  lemma TokenBytesSpell(t: Token)
    requires 0 <= t < 0x1_0000_0000
    ensures var b := TokenBytes(t); t == b[0] + 256 * b[1] + 65536 * b[2] + 16777216 * b[3]
  {
    var t1 := t / 256;
    var t2 := t1 / 256;
    assert t / 65536 == t2 && t / 16777216 == t2 / 256;
  }

  /** The message byte by byte: first the parent's digest, if any, then four bytes for each token, the
      lowest first. */
  lemma MessageSpelledOut(parent: Option<Digest>, tokens: seq<Token>, i: nat, m: seq<int>)
    requires i < |tokens| && 0 <= tokens[i] < 0x1_0000_0000 && m == Message(parent, tokens)
    ensures var p := if parent.Some? then parent.value else [];
            && |m| == |p| + 4 * |tokens| && m[..|p|] == p
            && var b := m[|p| + 4 * i..|p| + 4 * i + 4];
            && (forall j :: 0 <= j < 4 ==> 0 <= b[j] < 256)
            && tokens[i] == b[0] + 256 * b[1] + 65536 * b[2] + 16777216 * b[3]
  {
    var p := if parent.Some? then parent.value else [];
    BytesAt(tokens, i);
    TokenBytesSpell(tokens[i]);
    TokenBytesSmall(tokens[i]);
    hide TokenBytes, AllBytes;
    SlicedBehind(p, AllBytes(tokens), 4 * i);
  }

  lemma SlicedBehind(p: seq<int>, s: seq<int>, at: nat)
    requires at + 4 <= |s|
    ensures (p + s)[|p| + at..|p| + at + 4] == s[at..at + 4] && (p + s)[..|p|] == p
  {
  }

  lemma TokenBytesSmall(t: Token)
    requires 0 <= t < 0x1_0000_0000
    ensures forall j :: 0 <= j < 4 ==> 0 <= TokenBytes(t)[j] < 256
  {
  }

  lemma {:induction false} BytesAt(tokens: seq<Token>, i: nat)
    requires i < |tokens|
    ensures AllBytes(tokens)[4 * i..4 * i + 4] == TokenBytes(tokens[i])
    decreases |tokens|
  {
    hide TokenBytes;
    var e := |tokens| - 1;
    assert AllBytes(tokens) == AllBytes(tokens[..e]) + TokenBytes(tokens[e]);
    if i < e {
      BytesAt(tokens[..e], i);
      assert AllBytes(tokens)[4 * i..4 * i + 4] == AllBytes(tokens[..e])[4 * i..4 * i + 4];
    } else {
      assert AllBytes(tokens)[4 * e..4 * e + 4] == TokenBytes(tokens[e]);
    }
  }

  lemma AllBytesDecode(x: seq<Token>, y: seq<Token>)
    requires InRange(x) && InRange(y) && |x| == |y| && AllBytes(x) == AllBytes(y)
    ensures x == y
  {
    hide TokenBytes, AllBytes;
    forall i | 0 <= i < |x| ensures x[i] == y[i] {
      BytesAt(x, i);
      BytesAt(y, i);
      TokenBytesSpell(x[i]);
      TokenBytesSpell(y[i]);
    }
  }

  /** Blocks of one size and digests of one size need no separator: the message tells the parent and
      the tokens. */
  lemma MessageDecodes(a: Option<Digest>, x: seq<Token>, b: Option<Digest>, y: seq<Token>)
    requires InRange(x) && InRange(y) && |x| == |y| && Message(a, x) == Message(b, y)
    requires (a.Some? ==> |a.value| == DIGEST_BYTES) && (b.Some? ==> |b.value| == DIGEST_BYTES)
    ensures a == b && x == y
  {
    var m := Message(a, x);
    assert a.Some? <==> b.Some?;
    var p := if a.Some? then DIGEST_BYTES else 0;
    assert AllBytes(x) == m[p..] && AllBytes(y) == m[p..];
    assert a.Some? ==> a.value == m[..p] && b.value == m[..p];
    AllBytesDecode(x, y);
  }

  /** The digest of a chain decides all the tokens in it. */
  lemma {:induction false} ChainIsInjective(cfg: Config, s: seq<Token>, k: nat, t: seq<Token>, l: nat)
    requires Sound(cfg) && cfg.asked(s) && cfg.asked(t)
    requires Start(cfg, k) <= |s| && Start(cfg, l) <= |t| && Chain(cfg, s, k) == Chain(cfg, t, l)
    ensures k == l && s[..Start(cfg, k)] == t[..Start(cfg, k)]
    decreases k
  {
    hide Start, Message;
    StartStep(cfg, k);
    if k > 0 {
      StartStep(cfg, k - 1);
      StartStep(cfg, l - 1);
      assert Asked(cfg, s, k - 1) && Asked(cfg, t, l - 1);
      assert cfg.hash(BlockMessage(cfg, s, k - 1)) == cfg.hash(BlockMessage(cfg, t, l - 1));
      MessageDecodes(Chain(cfg, s, k - 1), BlockTokens(cfg, s, k - 1), Chain(cfg, t, l - 1),
                     BlockTokens(cfg, t, l - 1));
      ChainIsInjective(cfg, s, k - 1, t, l - 1);
      assert s[..Start(cfg, k)] == s[..Start(cfg, k - 1)] + BlockTokens(cfg, s, k - 1);
      assert t[..Start(cfg, k)] == t[..Start(cfg, k - 1)] + BlockTokens(cfg, t, k - 1);
    }
  }

  lemma {:induction false} ChainOfPrefix(cfg: Config, s: seq<Token>, k: nat, t: seq<Token>)
    requires Start(cfg, k) <= |s| && Start(cfg, k) <= |t| && s[..Start(cfg, k)] == t[..Start(cfg, k)]
    ensures Chain(cfg, s, k) == Chain(cfg, t, k)
    decreases k
  {
    hide Start;
    if k > 0 {
      StartStep(cfg, k - 1);
      assert s[..Start(cfg, k - 1)] == s[..Start(cfg, k)][..Start(cfg, k - 1)];
      assert t[..Start(cfg, k - 1)] == t[..Start(cfg, k)][..Start(cfg, k - 1)];
      ChainOfPrefix(cfg, s, k - 1, t);
      assert BlockTokens(cfg, s, k - 1) == s[..Start(cfg, k)][Start(cfg, k - 1)..];
      assert BlockTokens(cfg, t, k - 1) == t[..Start(cfg, k)][Start(cfg, k - 1)..];
    }
  }

  // ---- what the cache keeps ---------------------------------------------------------------

  /** Block `b` holds the rows of block `i` of `s`. */
  ghost predicate BlockHolds(cfg: Config, rows: seq<seq<Row>>, b: nat, s: seq<Token>, i: nat)
    requires Start(cfg, i) + cfg.blockSize <= |s|
  {
    b < |rows| && |rows[b]| == cfg.blockSize && forall o :: 0 <= o < cfg.blockSize ==>
      rows[b][o] == s[..Start(cfg, i) + o + 1]
  }

  /** A cached block holds the rows that its digest stands for, whichever prompt asks for them. */
  ghost predicate EntryOk(cfg: Config, rows: seq<seq<Row>>, h: Digest, e: Entry)
  {
    forall s, k: nat :: Stands(cfg, h, s, k) ==>
      e.tokens == BlockTokens(cfg, s, k) && BlockHolds(cfg, rows, e.block, s, k)
  }

  /** `h` digests the first k + 1 blocks of `s`, a prompt that some request comes with. */
  ghost predicate Stands(cfg: Config, h: Digest, s: seq<Token>, k: nat)
    ensures Stands(cfg, h, s, k) ==> Start(cfg, k) + cfg.blockSize <= |s|
  {
    StartStep(cfg, k);
    cfg.asked(s) && Start(cfg, k + 1) <= |s| && Chain(cfg, s, k + 1) == Some(h)
  }

  /** Position `o` of block `i` of the request, if written, holds the request's own row. */
  ghost predicate RowOk(cfg: Config, rows: seq<seq<Row>>, slot: Slot, i: nat, o: nat)
    requires i < |slot.blocks| && o < cfg.blockSize
  {
    var b := slot.blocks[i];
    b < |rows| && |rows[b]| == cfg.blockSize
      && (Start(cfg, i) + o < |slot.fed| ==> rows[b][o] == slot.fed[..Start(cfg, i) + o + 1])
  }

  /** The published blocks of a request are cached under the digests of its prompt; the others are
      its own. */
  ghost predicate TableOk(cfg: Config, digestOf: map<nat, Digest>, slot: Slot, i: nat)
    requires i < |slot.blocks| && Start(cfg, slot.published) <= |slot.prompt|
  {
    var b := slot.blocks[i];
    if i < slot.published then
      StartMonotone(cfg, i + 1, slot.published);
      b in digestOf && Some(digestOf[b]) == Chain(cfg, slot.prompt, i + 1)
    else b !in digestOf
  }

  lemma StartMonotone(cfg: Config, i: nat, j: nat)
    requires i <= j
    ensures Start(cfg, i) <= Start(cfg, j)
  {
    if i < j { StartOrder(cfg, i, j); }
  }

  ghost predicate SlotOk(cfg: Config, digestOf: map<nat, Digest>, rows: seq<seq<Row>>, slot: Slot)
  {
    && cfg.asked(slot.prompt) && |slot.fed| <= slot.numTokens <= Start(cfg, |slot.blocks|)
    && Start(cfg, slot.published) <= |slot.fed| && Start(cfg, slot.published) <= |slot.prompt|
    && slot.fed[..Start(cfg, slot.published)] == slot.prompt[..Start(cfg, slot.published)]
    && slot.parent == Chain(cfg, slot.prompt, slot.published)
    && (forall i :: 0 <= i < |slot.blocks| ==> TableOk(cfg, digestOf, slot, i))
    && forall i, o :: 0 <= i < |slot.blocks| && 0 <= o < cfg.blockSize ==> RowOk(cfg, rows, slot, i, o)
  }

  /** How often each block is named in the block tables. */
  ghost function Held(slots: seq<Slot>): (held: multiset<nat>)
  {
    if slots == [] then multiset{} else Held(slots[..|slots| - 1]) + multiset(slots[|slots| - 1].blocks)
  }

  ghost predicate SlotsOk(cfg: Config, digestOf: map<nat, Digest>, rows: seq<seq<Row>>, slots: seq<Slot>)
  {
    forall k :: 0 <= k < |slots| ==> SlotOk(cfg, digestOf, rows, slots[k])
  }

  ghost predicate EntriesOk(cfg: Config, rows: seq<seq<Row>>, entries: map<Digest, Entry>)
  {
    forall h :: h in entries ==> EntryOk(cfg, rows, h, entries[h])
  }

  ghost predicate Shaped(cfg: Config, n: nat, rows: seq<seq<Row>>)
  {
    |rows| == n && forall b :: 0 <= b < n ==> |rows[b]| == cfg.blockSize
  }

  ghost predicate Inv(cfg: Config, n: nat, st: Store, slots: seq<Slot>, rows: seq<seq<Row>>)
  {
    && Accounted(n, st, Held(slots)) && Shaped(cfg, n, rows)
    && SlotsOk(cfg, st.index.digestOf, rows, slots) && EntriesOk(cfg, rows, st.index.entries)
  }

  // ---- holders ----------------------------------------------------------------------------

  lemma Exchange(a: multiset<nat>, a': multiset<nat>, x: multiset<nat>, y: multiset<nat>, z: multiset<nat>)
    requires a' + x == a + y
    ensures a' + z + x == a + z + y
  {
    assert a' + z + x == a' + x + z;
  }

  lemma {:induction false} HeldUpdate(slots: seq<Slot>, k: nat, slot: Slot)
    requires k < |slots|
    ensures Held(slots[k := slot]) + multiset(slots[k].blocks) == Held(slots) + multiset(slot.blocks)
    decreases |slots|
  {
    var e := |slots| - 1;
    var init, updated := slots[..e], slots[k := slot];
    if k < e {
      HeldUpdate(init, k, slot);
      assert updated[..e] == init[k := slot] && updated[e] == slots[e];
      Exchange(Held(init), Held(init[k := slot]), multiset(slots[k].blocks), multiset(slot.blocks),
               multiset(slots[e].blocks));
    } else {
      assert updated[..e] == init && updated[e] == slot;
    }
  }

  lemma HeldSame(slots: seq<Slot>, k: nat, slot: Slot)
    requires k < |slots| && multiset(slot.blocks) == multiset(slots[k].blocks)
    ensures Held(slots[k := slot]) == Held(slots)
  {
    HeldUpdate(slots, k, slot);
    assert Held(slots[k := slot]) == Held(slots[k := slot]) + multiset(slots[k].blocks) - multiset(slots[k].blocks);
    assert Held(slots) == Held(slots) + multiset(slot.blocks) - multiset(slot.blocks);
  }

  lemma HeldLonger(slots: seq<Slot>, k: nat, slot: Slot, b: nat)
    requires k < |slots| && slot.blocks == slots[k].blocks + [b]
    ensures Held(slots[k := slot]) == Held(slots) + multiset{b}
  {
    HeldUpdate(slots, k, slot);
    var old', new' := multiset(slots[k].blocks), Held(slots[k := slot]);
    assert new' == new' + old' - old';
    assert Held(slots) + multiset{b} == Held(slots) + (old' + multiset{b}) - old';
  }

  lemma RestOfSlots(slots: seq<Slot>, k: nat)
    requires k < |slots| - 1
    ensures var e := |slots| - 1;
            var rest := slots[..k] + slots[k + 1..];
            rest[..e - 1] == slots[..e][..k] + slots[..e][k + 1..] && rest[e - 1] == slots[e]
              && slots[..e][k] == slots[k]
  {
  }

  lemma {:induction false} HeldRemove(slots: seq<Slot>, k: nat)
    requires k < |slots|
    ensures Held(slots[..k] + slots[k + 1..]) + multiset(slots[k].blocks) == Held(slots)
    decreases |slots|
  {
    hide Held;
    var e := |slots| - 1;
    var init, rest := slots[..e], slots[..k] + slots[k + 1..];
    HeldLast(slots);
    if k < e {
      HeldRemove(init, k);
      RestOfSlots(slots, k);
      HeldLast(rest);
      Exchange(Held(init), Held(rest[..e - 1]), multiset(slots[k].blocks), multiset{}, multiset(slots[e].blocks));
    } else {
      assert rest == init;
    }
  }

  lemma HeldLast(slots: seq<Slot>)
    requires slots != []
    ensures Held(slots) == Held(slots[..|slots| - 1]) + multiset(slots[|slots| - 1].blocks)
  {
  }

  lemma {:induction false} HeldIncludes(slots: seq<Slot>, k: nat)
    requires k < |slots|
    ensures multiset(slots[k].blocks) <= Held(slots)
    decreases |slots|
  {
    if k < |slots| - 1 { HeldIncludes(slots[..|slots| - 1], k); }
  }

  /** The places of the first `n` block tables that name `b`. */
  ghost function Places(slots: seq<Slot>, n: nat, b: nat): (places: set<(nat, nat)>)
    requires n <= |slots|
  {
    set k: nat, i: nat | k < n && i < |slots[k].blocks| && slots[k].blocks[i] == b :: (k, i)
  }

  ghost function PlacesIn(k: nat, blocks: seq<nat>, m: nat, b: nat): (places: set<(nat, nat)>)
    requires m <= |blocks|
  {
    set i: nat | i < m && blocks[i] == b :: (k, i)
  }

  lemma {:induction false} TableCounts(k: nat, blocks: seq<nat>, m: nat, b: nat)
    requires m <= |blocks|
    ensures multiset(blocks[..m])[b] == |PlacesIn(k, blocks, m, b)|
    decreases m
  {
    if m == 0 {
      assert PlacesIn(k, blocks, m, b) == {};
    } else {
      TableCounts(k, blocks, m - 1, b);
      assert blocks[..m] == blocks[..m - 1] + [blocks[m - 1]];
      assert PlacesIn(k, blocks, m, b)
          == PlacesIn(k, blocks, m - 1, b) + if blocks[m - 1] == b then {(k, m - 1)} else {};
    }
  }

  /** A block is held once for every place of a block table that names it. */
  lemma {:induction false} HeldCounts(slots: seq<Slot>, n: nat, b: nat)
    requires n <= |slots|
    ensures Held(slots[..n])[b] == |Places(slots, n, b)|
    decreases n
  {
    if n == 0 {
      assert Places(slots, n, b) == {};
    } else {
      HeldCounts(slots, n - 1, b);
      assert slots[..n][..n - 1] == slots[..n - 1];
      HeldLast(slots[..n]);
      TableCounts(n - 1, slots[n - 1].blocks, |slots[n - 1].blocks|, b);
      assert slots[n - 1].blocks[..|slots[n - 1].blocks|] == slots[n - 1].blocks;
      hide Held, Places, PlacesIn;
      OneMoreTable(slots, n, b);
    }
  }

  lemma OneMoreTable(slots: seq<Slot>, n: nat, b: nat)
    requires 0 < n <= |slots|
    ensures var blocks := slots[n - 1].blocks;
            |Places(slots, n, b)| == |Places(slots, n - 1, b)| + |PlacesIn(n - 1, blocks, |blocks|, b)|
  {
    var less, own := Places(slots, n - 1, b), PlacesIn(n - 1, slots[n - 1].blocks, |slots[n - 1].blocks|, b);
    assert less !! own && Places(slots, n, b) == less + own;
  }

  lemma NamedTwice(blocks: seq<nat>, i: nat, j: nat)
    requires i < j < |blocks| && blocks[i] == blocks[j]
    ensures multiset(blocks)[blocks[i]] >= 2
  {
    assert blocks == blocks[..j] + [blocks[j]] + blocks[j + 1..];
    assert blocks[i] in blocks[..j];
  }

  /** A block with one holder is named in one place. */
  lemma OneHolder(slots: seq<Slot>, k: nat, i: nat, l: nat, j: nat)
    requires k < |slots| && i < |slots[k].blocks| && l < |slots| && j < |slots[l].blocks|
    requires slots[k].blocks[i] == slots[l].blocks[j] && Held(slots)[slots[k].blocks[i]] == 1
    ensures k == l && i == j
  {
    var b := slots[k].blocks[i];
    if k == l {
      HeldIncludes(slots, k);
      if i < j { NamedTwice(slots[k].blocks, i, j); }
      if j < i { NamedTwice(slots[k].blocks, j, i); }
    } else {
      var lo, hi := if k < l then k else l, if k < l then l else k;
      assert b in multiset(slots[lo].blocks) && b in multiset(slots[hi].blocks);
      HeldRemove(slots, hi);
      var rest := slots[..hi] + slots[hi + 1..];
      assert rest[lo] == slots[lo];
      HeldIncludes(rest, lo);
    }
  }

  // ---- steps ------------------------------------------------------------------------------

  /** An unpublished block of a request is held by that request alone, and is in no directory. */
  lemma PrivateBlock(cfg: Config, n: nat, st: Store, slots: seq<Slot>, rows: seq<seq<Row>>, k: nat, i: nat)
    requires Inv(cfg, n, st, slots, rows) && k < |slots| && slots[k].published <= i < |slots[k].blocks|
    ensures var b := slots[k].blocks[i]; b < n && Held(slots)[b] == 1 && b !in st.index.digestOf
  {
    hide RowOk, EntryOk, Chain;
    var b := slots[k].blocks[i];
    assert TableOk(cfg, st.index.digestOf, slots[k], i);
    HeldIncludes(slots, k);
    assert b in multiset(slots[k].blocks);
    assert BlockOk(n, st, Held(slots), b);
  }

  /** Nothing about block `b` changed. */
  ghost predicate Untouched(d: map<nat, Digest>, d': map<nat, Digest>, rows: seq<seq<Row>>, rows': seq<seq<Row>>,
                            b: nat)
  {
    && (b in d <==> b in d') && (b in d ==> d[b] == d'[b])
    && |rows| == |rows'| && (b < |rows| ==> rows[b] == rows'[b])
  }

  lemma SlotFrame(cfg: Config, d: map<nat, Digest>, d': map<nat, Digest>, rows: seq<seq<Row>>, rows': seq<seq<Row>>,
                  slot: Slot)
    requires SlotOk(cfg, d, rows, slot)
    requires forall i :: 0 <= i < |slot.blocks| ==> Untouched(d, d', rows, rows', slot.blocks[i])
    ensures SlotOk(cfg, d', rows', slot)
  {
    hide Chain, Start;
    forall i | 0 <= i < |slot.blocks| ensures TableOk(cfg, d', slot, i) {
      assert TableOk(cfg, d, slot, i) && Untouched(d, d', rows, rows', slot.blocks[i]);
    }
    forall i, o | 0 <= i < |slot.blocks| && 0 <= o < cfg.blockSize ensures RowOk(cfg, rows', slot, i, o) {
      assert RowOk(cfg, rows, slot, i, o) && Untouched(d, d', rows, rows', slot.blocks[i]);
    }
  }

  /** The published blocks of a request are among its blocks. */
  lemma PublishedWithin(cfg: Config, digestOf: map<nat, Digest>, rows: seq<seq<Row>>, slot: Slot)
    requires cfg.blockSize >= 1 && SlotOk(cfg, digestOf, rows, slot)
    ensures slot.published <= |slot.blocks|
  {
    hide Chain, Start, TableOk, RowOk;
    if slot.published > |slot.blocks| { StartOrder(cfg, |slot.blocks|, slot.published); }
  }

  lemma LongerTable(cfg: Config, digestOf: map<nat, Digest>, rows: seq<seq<Row>>, slot: Slot, b: nat)
    requires cfg.blockSize >= 1 && SlotOk(cfg, digestOf, rows, slot)
    requires b !in digestOf && b < |rows| && |rows[b]| == cfg.blockSize
    ensures SlotOk(cfg, digestOf, rows, slot.(blocks := slot.blocks + [b]))
  {
    hide Chain, Start;
    var longer := slot.(blocks := slot.blocks + [b]);
    var e := |slot.blocks|;
    PublishedWithin(cfg, digestOf, rows, slot);
    StartStep(cfg, e);
    forall i | 0 <= i <= e ensures TableOk(cfg, digestOf, longer, i) {
      if i < e { assert TableOk(cfg, digestOf, slot, i); }
    }
    forall i, o | 0 <= i <= e && 0 <= o < cfg.blockSize ensures RowOk(cfg, rows, longer, i, o) {
      if i < e { assert RowOk(cfg, rows, slot, i, o); }
    }
  }

  /** All requests but `k` keep blocks that nothing happened to. */
  lemma SlotsFrame(cfg: Config, d: map<nat, Digest>, d': map<nat, Digest>, rows: seq<seq<Row>>, rows': seq<seq<Row>>,
                   slots: seq<Slot>, k: nat, b: nat, slot': Slot)
    requires SlotsOk(cfg, d, rows, slots) && k < |slots| && SlotOk(cfg, d', rows', slot')
    requires forall c: nat :: c != b ==> Untouched(d, d', rows, rows', c)
    requires forall l, j :: 0 <= l < |slots| && l != k && 0 <= j < |slots[l].blocks| ==> slots[l].blocks[j] != b
    ensures SlotsOk(cfg, d', rows', slots[k := slot'])
  {
    hide SlotOk, Untouched;
    forall l | 0 <= l < |slots| && l != k ensures SlotOk(cfg, d', rows', slots[l]) {
      SlotFrame(cfg, d, d', rows, rows', slots[l]);
    }
  }

  lemma NotNamed(slots: seq<Slot>, b: nat, l: nat, j: nat)
    requires Held(slots)[b] == 0 && l < |slots| && j < |slots[l].blocks|
    ensures slots[l].blocks[j] != b
  {
    HeldIncludes(slots, l);
    assert slots[l].blocks[j] in multiset(slots[l].blocks);
  }

  /** A request gets one more block. */
  lemma ReserveStep(cfg: Config, n: nat, st: Store, slots: seq<Slot>, rows: seq<seq<Row>>, k: nat)
    requires cfg.blockSize >= 1 && Inv(cfg, n, st, slots, rows) && k < |slots| && Taken(st).Some?
    ensures var (st', b) := Taken(st).value;
            Inv(cfg, n, st', slots[k := slots[k].(blocks := slots[k].blocks + [b])], rows)
  {
    assert Linked(st.index);
    hide SlotsOk, EntriesOk, Taken, Accounted, Linked;
    AllocateKeeps(n, st, Held(slots));
    var (st', b) := Taken(st).value;
    HeldLonger(slots, k, slots[k].(blocks := slots[k].blocks + [b]), b);
    SlotsReserve(cfg, st.index.digestOf, st'.index.digestOf, rows, slots, k, b);
    FewerEntries(cfg, rows, st.index.entries, st'.index.entries);
  }

  lemma SlotsReserve(cfg: Config, d: map<nat, Digest>, d': map<nat, Digest>, rows: seq<seq<Row>>, slots: seq<Slot>,
                     k: nat, b: nat)
    requires cfg.blockSize >= 1 && SlotsOk(cfg, d, rows, slots) && k < |slots| && d' == d - {b}
    requires b < |rows| && |rows[b]| == cfg.blockSize && Held(slots)[b] == 0
    ensures SlotsOk(cfg, d', rows, slots[k := slots[k].(blocks := slots[k].blocks + [b])])
  {
    assert SlotOk(cfg, d, rows, slots[k]);
    hide SlotOk, SlotsOk, Held, Untouched;
    OthersUntouched(d, rows, b);
    forall l, j | 0 <= l < |slots| && 0 <= j < |slots[l].blocks| ensures slots[l].blocks[j] != b {
      NotNamed(slots, b, l, j);
    }
    var slot' := slots[k].(blocks := slots[k].blocks + [b]);
    SlotFrame(cfg, d, d', rows, rows, slots[k]);
    LongerTable(cfg, d', rows, slots[k], b);
    SlotsFrame(cfg, d, d', rows, rows, slots, k, b, slot');
  }

  lemma OthersUntouched(d: map<nat, Digest>, rows: seq<seq<Row>>, b: nat)
    ensures forall c: nat :: c != b ==> Untouched(d, d - {b}, rows, rows, c)
  {
  }

  lemma FewerEntries(cfg: Config, rows: seq<seq<Row>>, entries: map<Digest, Entry>, fewer: map<Digest, Entry>)
    requires EntriesOk(cfg, rows, entries)
    requires forall h :: h in fewer ==> h in entries && fewer[h] == entries[h]
    ensures EntriesOk(cfg, rows, fewer)
  {
    hide EntryOk;
  }

  /** A request claims positions that its blocks have room for. */
  lemma AdvanceStep(cfg: Config, n: nat, st: Store, slots: seq<Slot>, rows: seq<seq<Row>>, k: nat, length: nat)
    requires Inv(cfg, n, st, slots, rows) && k < |slots| && |slots[k].fed| <= length <= Start(cfg, |slots[k].blocks|)
    ensures Inv(cfg, n, st, slots[k := slots[k].(numTokens := length)], rows)
  {
    var slot, slot' := slots[k], slots[k].(numTokens := length);
    assert SlotOk(cfg, st.index.digestOf, rows, slot);
    hide EntriesOk, Accounted, Chain, Start, RowOk, TableOk;
    HeldSame(slots, k, slot');
    assert SlotOk(cfg, st.index.digestOf, rows, slot') by {
      SameRows(cfg, st.index.digestOf, rows, slot, slot');
    }
  }

  lemma SameRows(cfg: Config, digestOf: map<nat, Digest>, rows: seq<seq<Row>>, slot: Slot, slot': Slot)
    requires Start(cfg, slot.published) <= |slot.prompt| && slot' == slot.(numTokens := slot'.numTokens)
    requires forall i :: 0 <= i < |slot.blocks| ==> TableOk(cfg, digestOf, slot, i)
    requires forall i, o :: 0 <= i < |slot.blocks| && 0 <= o < cfg.blockSize ==> RowOk(cfg, rows, slot, i, o)
    ensures forall i :: 0 <= i < |slot'.blocks| ==> TableOk(cfg, digestOf, slot', i)
    ensures forall i, o :: 0 <= i < |slot'.blocks| && 0 <= o < cfg.blockSize ==> RowOk(cfg, rows, slot', i, o)
  {
    hide Chain, Start;
    forall i | 0 <= i < |slot'.blocks| ensures TableOk(cfg, digestOf, slot', i) {
      assert TableOk(cfg, digestOf, slot, i);
    }
    forall i, o | 0 <= i < |slot'.blocks| && 0 <= o < cfg.blockSize ensures RowOk(cfg, rows, slot', i, o) {
      assert RowOk(cfg, rows, slot, i, o);
    }
  }

  // ---- writing ----------------------------------------------------------------------------

  function Written(rows: seq<seq<Row>>, b: nat, o: nat, row: Row): (rows': seq<seq<Row>>)
    requires b < |rows| && o < |rows[b]|
    ensures |rows'| == |rows| && |rows'[b]| == |rows[b]|
  {
    rows[b := rows[b][o := row]]
  }

  /** The place of the next row: the request's own block. */
  lemma NextPlace(cfg: Config, n: nat, st: Store, slots: seq<Slot>, rows: seq<seq<Row>>, k: nat)
    requires cfg.blockSize >= 1 && Inv(cfg, n, st, slots, rows) && k < |slots| && |slots[k].fed| < slots[k].numTokens
    ensures var i := BlockAt(cfg, |slots[k].fed|);
            slots[k].published <= i < |slots[k].blocks| && slots[k].blocks[i] < n == |rows|
              && |rows[slots[k].blocks[i]]| == cfg.blockSize
  {
    hide EntryOk, Accounted, Chain, RowOk, TableOk;
    var slot := slots[k];
    var i := BlockAt(cfg, |slot.fed|);
    PositionSplits(cfg, |slot.fed|);
    hide Start;
    if i < slot.published { StartOrder(cfg, i, slot.published); }
    if i >= |slot.blocks| { StartMonotone(cfg, |slot.blocks|, i); }
    PrivateBlock(cfg, n, st, slots, rows, k, i);
  }

  /** The writing request itself: its new row is right, and its other rows are where they were. */
  lemma OwnRows(cfg: Config, digestOf: map<nat, Digest>, rows: seq<seq<Row>>, slot: Slot, t: Token, i: nat)
    requires cfg.blockSize >= 1 && SlotOk(cfg, digestOf, rows, slot) && |slot.fed| < slot.numTokens
    requires i == BlockAt(cfg, |slot.fed|) < |slot.blocks| && slot.blocks[i] < |rows|
    requires |rows[slot.blocks[i]]| == cfg.blockSize
    requires forall j :: 0 <= j < |slot.blocks| && slot.blocks[j] == slot.blocks[i] ==> j == i
    ensures SlotOk(cfg, digestOf, Written(rows, slot.blocks[i], OffsetAt(cfg, |slot.fed|), slot.fed + [t]),
                   slot.(fed := slot.fed + [t]))
  {
    var o, b, fed' := OffsetAt(cfg, |slot.fed|), slot.blocks[i], slot.fed + [t];
    var rows', slot' := Written(rows, b, o, fed'), slot.(fed := fed');
    PositionSplits(cfg, |slot.fed|);
    hide Chain, Start, BlockAt, OffsetAt;
    assert fed'[..Start(cfg, slot.published)] == slot.fed[..Start(cfg, slot.published)];
    forall j | 0 <= j < |slot.blocks| ensures TableOk(cfg, digestOf, slot', j) {
      assert TableOk(cfg, digestOf, slot, j);
    }
    forall j, p | 0 <= j < |slot.blocks| && 0 <= p < cfg.blockSize ensures RowOk(cfg, rows', slot', j, p) {
      assert RowOk(cfg, rows, slot, j, p);
      var q := Start(cfg, j) + p;
      if q < |slot.fed| {
        assert (j, p) != (i, o);
        assert fed'[..q + 1] == slot.fed[..q + 1];
      } else if q == |slot.fed| {
        PositionIsUnique(cfg, j, p, i, o);
        assert fed'[..q + 1] == fed';
      }
    }
  }

  /** A request writes its next row. */
  lemma WriteStep(cfg: Config, n: nat, st: Store, slots: seq<Slot>, rows: seq<seq<Row>>, k: nat, t: Token)
    requires cfg.blockSize >= 1 && Inv(cfg, n, st, slots, rows) && k < |slots| && |slots[k].fed| < slots[k].numTokens
    ensures var slot := slots[k];
            var i := BlockAt(cfg, |slot.fed|);
            && i < |slot.blocks| && slot.blocks[i] < |rows| && |rows[slot.blocks[i]]| == cfg.blockSize
            && Inv(cfg, n, st, slots[k := slot.(fed := slot.fed + [t])],
                   Written(rows, slot.blocks[i], OffsetAt(cfg, |slot.fed|), slot.fed + [t]))
  {
    hide SlotOk, SlotsOk, EntryOk, Accounted;
    NextPlace(cfg, n, st, slots, rows, k);
    var slot := slots[k];
    var i := BlockAt(cfg, |slot.fed|);
    var b := slot.blocks[i];
    var slot', rows' := slot.(fed := slot.fed + [t]), Written(rows, b, OffsetAt(cfg, |slot.fed|), slot.fed + [t]);
    PrivateBlock(cfg, n, st, slots, rows, k, i);
    UncachedBlock(n, st, Held(slots), b);
    HeldSame(slots, k, slot');
    hide Held;
    SlotsWrite(cfg, st.index.digestOf, rows, slots, k, t, i);
    forall h | h in st.index.entries ensures EntryOk(cfg, rows', h, st.index.entries[h]) {
      EntryFrame(cfg, rows, rows', h, st.index.entries[h]);
    }
  }

  lemma UncachedBlock(n: nat, st: Store, held: multiset<nat>, b: nat)
    requires Accounted(n, st, held) && b !in st.index.digestOf
    ensures forall h :: h in st.index.entries ==> st.index.entries[h].block != b
  {
  }

  lemma SlotsWrite(cfg: Config, d: map<nat, Digest>, rows: seq<seq<Row>>, slots: seq<Slot>, k: nat, t: Token, i: nat)
    requires cfg.blockSize >= 1 && SlotsOk(cfg, d, rows, slots) && k < |slots| && |slots[k].fed| < slots[k].numTokens
    requires i == BlockAt(cfg, |slots[k].fed|) < |slots[k].blocks| && slots[k].blocks[i] < |rows|
    requires |rows[slots[k].blocks[i]]| == cfg.blockSize && Held(slots)[slots[k].blocks[i]] == 1
    ensures var slot := slots[k];
            SlotsOk(cfg, d, Written(rows, slot.blocks[i], OffsetAt(cfg, |slot.fed|), slot.fed + [t]),
                    slots[k := slot.(fed := slot.fed + [t])])
  {
    var slot := slots[k];
    assert SlotOk(cfg, d, rows, slot);
    hide SlotOk, SlotsOk, Held;
    OnlyHere(slots, k, i);
    OwnRows(cfg, d, rows, slot, t, i);
    SlotsFrame(cfg, d, d, rows, Written(rows, slot.blocks[i], OffsetAt(cfg, |slot.fed|), slot.fed + [t]), slots, k,
               slot.blocks[i], slot.(fed := slot.fed + [t]));
  }

  lemma EntryFrame(cfg: Config, rows: seq<seq<Row>>, rows': seq<seq<Row>>, h: Digest, e: Entry)
    requires EntryOk(cfg, rows, h, e) && |rows| == |rows'| && (e.block < |rows| ==> rows[e.block] == rows'[e.block])
    ensures EntryOk(cfg, rows', h, e)
  {
    hide Stands, Start;
    forall s, k: nat | Stands(cfg, h, s, k)
      ensures e.tokens == BlockTokens(cfg, s, k) && BlockHolds(cfg, rows', e.block, s, k)
    {
      assert BlockHolds(cfg, rows, e.block, s, k);
    }
  }

  // ---- publishing -------------------------------------------------------------------------

  /** The request has written its next prompt block in full. */
  ghost predicate Publishable(cfg: Config, slot: Slot)
  {
    var e := Start(cfg, slot.published) + cfg.blockSize;
    e <= |slot.fed| && e <= |slot.prompt| && slot.fed[..e] == slot.prompt[..e]
  }

  function NextTokens(cfg: Config, slot: Slot): (tokens: seq<Token>)
    requires Start(cfg, slot.published) + cfg.blockSize <= |slot.prompt|
  {
    BlockTokens(cfg, slot.prompt, slot.published)
  }

  function NextDigest(cfg: Config, slot: Slot): (h: Digest)
    requires Start(cfg, slot.published) + cfg.blockSize <= |slot.prompt|
  {
    HashBlock(cfg, slot.parent, NextTokens(cfg, slot))
  }

  /** The request after its next block went to the cache, which keeps it as block `c`. */
  function PublishedSlot(cfg: Config, slot: Slot, c: nat): (slot': Slot)
    requires Start(cfg, slot.published) + cfg.blockSize <= |slot.prompt| && slot.published < |slot.blocks|
  {
    slot.(blocks := slot.blocks[slot.published := c], published := slot.published + 1,
          parent := Some(NextDigest(cfg, slot)))
  }

  lemma PublishableRoom(cfg: Config, digestOf: map<nat, Digest>, rows: seq<seq<Row>>, slot: Slot)
    requires cfg.blockSize >= 1 && SlotOk(cfg, digestOf, rows, slot) && Publishable(cfg, slot)
    ensures slot.published < |slot.blocks| && Stands(cfg, NextDigest(cfg, slot), slot.prompt, slot.published)
  {
    hide TableOk, RowOk, Start;
    StartStep(cfg, slot.published);
    if slot.published >= |slot.blocks| { StartMonotone(cfg, |slot.blocks|, slot.published); }
  }

  /** The next block stands at `c`: the request reads the same rows as before. */
  lemma PublishedSlotOk(cfg: Config, d: map<nat, Digest>, d': map<nat, Digest>, rows: seq<seq<Row>>, slot: Slot, c: nat)
    requires cfg.blockSize >= 1 && SlotOk(cfg, d, rows, slot) && Publishable(cfg, slot)
    requires slot.published < |slot.blocks|
    requires forall j :: 0 <= j < |slot.blocks| && j != slot.published ==> Untouched(d, d', rows, rows, slot.blocks[j])
    requires c in d' && d'[c] == NextDigest(cfg, slot) && BlockHolds(cfg, rows, c, slot.prompt, slot.published)
    ensures SlotOk(cfg, d', rows, PublishedSlot(cfg, slot, c))
  {
    var i, slot' := slot.published, PublishedSlot(cfg, slot, c);
    hide Chain, Start, TableOk, NextDigest, BlockHolds;
    PublishableRoom(cfg, d, rows, slot);
    StartStep(cfg, i);
    forall j | 0 <= j < |slot.blocks| ensures TableOk(cfg, d', slot', j) {
      PublishedTableOk(cfg, d, d', rows, slot, c, j);
    }
    forall j, o | 0 <= j < |slot.blocks| && 0 <= o < cfg.blockSize ensures RowOk(cfg, rows, slot', j, o) {
      assert RowOk(cfg, rows, slot, j, o);
      PublishedRowOk(cfg, rows, slot, c, j, o);
    }
  }

  lemma PublishedTableOk(cfg: Config, d: map<nat, Digest>, d': map<nat, Digest>, rows: seq<seq<Row>>, slot: Slot,
                         c: nat, j: nat)
    requires Start(cfg, slot.published) + cfg.blockSize == Start(cfg, slot.published + 1) <= |slot.prompt|
    requires slot.published < |slot.blocks| && j < |slot.blocks| && TableOk(cfg, d, slot, j)
    requires j != slot.published ==> Untouched(d, d', rows, rows, slot.blocks[j])
    requires c in d' && d'[c] == NextDigest(cfg, slot)
    requires Chain(cfg, slot.prompt, slot.published + 1) == Some(NextDigest(cfg, slot))
    ensures TableOk(cfg, d', PublishedSlot(cfg, slot, c), j)
  {
    hide Start, Chain, NextDigest;
  }

  lemma PublishedRowOk(cfg: Config, rows: seq<seq<Row>>, slot: Slot, c: nat, j: nat, o: nat)
    requires cfg.blockSize >= 1 && Publishable(cfg, slot) && slot.published < |slot.blocks| && j < |slot.blocks|
    requires o < cfg.blockSize
    requires RowOk(cfg, rows, slot, j, o) && BlockHolds(cfg, rows, c, slot.prompt, slot.published)
    ensures RowOk(cfg, rows, PublishedSlot(cfg, slot, c), j, o)
  {
    SameRowAt(cfg, slot, o);
    hide Start, NextDigest, Publishable;
  }

  /** What is written of the next block agrees with the prompt. */
  lemma SameRowAt(cfg: Config, slot: Slot, o: nat)
    requires Publishable(cfg, slot) && o < cfg.blockSize
    ensures var q := Start(cfg, slot.published) + o; slot.prompt[..q + 1] == slot.fed[..q + 1]
  {
    hide Start;
    var e, q := Start(cfg, slot.published) + cfg.blockSize, Start(cfg, slot.published) + o;
    assert slot.prompt[..q + 1] == slot.prompt[..e][..q + 1] && slot.fed[..q + 1] == slot.fed[..e][..q + 1];
  }

  /** A block that is written and agrees with the prompt holds the rows of the prompt. */
  lemma WrittenBlockHolds(cfg: Config, rows: seq<seq<Row>>, slot: Slot)
    requires cfg.blockSize >= 1 && Publishable(cfg, slot) && slot.published < |slot.blocks|
    requires forall o :: 0 <= o < cfg.blockSize ==> RowOk(cfg, rows, slot, slot.published, o)
    ensures BlockHolds(cfg, rows, slot.blocks[slot.published], slot.prompt, slot.published)
  {
    hide Start;
    var i, b := slot.published, slot.blocks[slot.published];
    assert RowOk(cfg, rows, slot, i, 0);
    forall o | 0 <= o < cfg.blockSize ensures rows[b][o] == slot.prompt[..Start(cfg, i) + o + 1] {
      assert RowOk(cfg, rows, slot, i, o);
      SameRowAt(cfg, slot, o);
    }
  }

  lemma NextTokensAre(cfg: Config, slot: Slot)
    requires Publishable(cfg, slot)
    ensures NextTokens(cfg, slot) == BlockTokens(cfg, slot.prompt, slot.published)
  {
  }

  /** What a written block holds is what its digest stands for. */
  lemma NewEntryOk(cfg: Config, rows: seq<seq<Row>>, slot: Slot)
    requires cfg.asked(slot.prompt)
    requires Sound(cfg) && Publishable(cfg, slot) && slot.published < |slot.blocks|
    requires Stands(cfg, NextDigest(cfg, slot), slot.prompt, slot.published)
    requires forall o :: 0 <= o < cfg.blockSize ==> RowOk(cfg, rows, slot, slot.published, o)
    ensures BlockHolds(cfg, rows, slot.blocks[slot.published], slot.prompt, slot.published)
    ensures EntryOk(cfg, rows, NextDigest(cfg, slot), Entry(slot.blocks[slot.published], NextTokens(cfg, slot), 1))
  {
    var i, b, h := slot.published, slot.blocks[slot.published], NextDigest(cfg, slot);
    hide Sound, Start, Chain, RowOk, Publishable, NextDigest, NextTokens, BlockTokens, BlockHolds, Stands;
    WrittenBlockHolds(cfg, rows, slot);
    NextTokensAre(cfg, slot);
    forall s, k: nat | Stands(cfg, h, s, k)
      ensures NextTokens(cfg, slot) == BlockTokens(cfg, s, k) && BlockHolds(cfg, rows, b, s, k)
    {
      SameBlock(cfg, rows, b, h, slot.prompt, i, s, k);
    }
  }

  /** Two prompts whose blocks have the same digest agree up to and with that block. */
  lemma SameBlock(cfg: Config, rows: seq<seq<Row>>, b: nat, h: Digest, s: seq<Token>, i: nat, t: seq<Token>, k: nat)
    requires Sound(cfg) && Stands(cfg, h, s, i) && Stands(cfg, h, t, k) && BlockHolds(cfg, rows, b, s, i)
    ensures BlockTokens(cfg, s, i) == BlockTokens(cfg, t, k) && BlockHolds(cfg, rows, b, t, k)
  {
    hide Sound, Start, Chain, BlockTokens, BlockHolds;
    StartStep(cfg, i);
    StartStep(cfg, k);
    ChainIsInjective(cfg, s, i + 1, t, k + 1);
    SamePrefixHolds(cfg, rows, b, s, t, i);
  }

  lemma SamePrefixHolds(cfg: Config, rows: seq<seq<Row>>, b: nat, s: seq<Token>, t: seq<Token>, i: nat)
    requires Start(cfg, i) + cfg.blockSize <= |s| && Start(cfg, i) + cfg.blockSize <= |t|
    requires s[..Start(cfg, i) + cfg.blockSize] == t[..Start(cfg, i) + cfg.blockSize] && BlockHolds(cfg, rows, b, s, i)
    ensures BlockTokens(cfg, s, i) == BlockTokens(cfg, t, i) && BlockHolds(cfg, rows, b, t, i)
  {
    hide Start;
    var a, e := Start(cfg, i), Start(cfg, i) + cfg.blockSize;
    assert s[a..e] == s[..e][a..] && t[a..e] == t[..e][a..];
    forall o | 0 <= o < cfg.blockSize ensures rows[b][o] == t[..a + o + 1] {
      assert s[..a + o + 1] == s[..e][..a + o + 1] && t[..a + o + 1] == t[..e][..a + o + 1];
    }
  }

  /** The block is new to the cache: it becomes the cached one. */
  lemma PublishNewStep(cfg: Config, n: nat, st: Store, slots: seq<Slot>, rows: seq<seq<Row>>, k: nat)
    requires Sound(cfg) && Inv(cfg, n, st, slots, rows) && k < |slots| && Publishable(cfg, slots[k])
    requires slots[k].published < |slots[k].blocks|
    requires NextDigest(cfg, slots[k]) !in st.index.entries
    ensures var slot := slots[k];
            var b := slot.blocks[slot.published];
            var r := Published(st.index, NextDigest(cfg, slot), NextTokens(cfg, slot), b);
            && r.Some? && r.value.1 == b && !r.value.2
              && Inv(cfg, n, st.(index := r.value.0), slots[k := PublishedSlot(cfg, slot, b)], rows)
  {
    assert cfg.blockSize >= 1;
    hide Sound;
    var slot := slots[k];
    var i, b, h, tokens := slot.published, slot.blocks[slot.published], NextDigest(cfg, slot), NextTokens(cfg, slot);
    var slot' := PublishedSlot(cfg, slot, b);
    var d := st.index.digestOf;
    var d' := d[b := h];
    assert SlotOk(cfg, d, rows, slot);
    PublishableRoom(cfg, d, rows, slot);
    NewEntryOk(cfg, rows, slot);
    hide SlotOk, SlotsOk, EntryOk, BlockHolds, Stands, Publishable, NextDigest, NextTokens, Start, Accounted, Linked,
      Held;
    PrivateBlock(cfg, n, st, slots, rows, k, i);
    PublishKeeps(n, st, Held(slots), h, tokens, b);
    PublishedTable(cfg, slot, b);
    assert slot'.blocks == slot.blocks;
    HeldSame(slots, k, slot');
    NewDirectory(cfg, d, rows, slots, k, b);
  }

  /** With its block in the directory, the request and all others are as they should be. */
  lemma NewDirectory(cfg: Config, d: map<nat, Digest>, rows: seq<seq<Row>>, slots: seq<Slot>, k: nat, b: nat)
    requires cfg.blockSize >= 1 && SlotsOk(cfg, d, rows, slots) && k < |slots|
    requires Publishable(cfg, slots[k]) && slots[k].published < |slots[k].blocks|
    requires b == slots[k].blocks[slots[k].published]
    requires Held(slots)[b] == 1 && BlockHolds(cfg, rows, b, slots[k].prompt, slots[k].published)
    ensures SlotsOk(cfg, d[b := NextDigest(cfg, slots[k])], rows, slots[k := PublishedSlot(cfg, slots[k], b)])
  {
    var d' := d[b := NextDigest(cfg, slots[k])];
    assert SlotOk(cfg, d, rows, slots[k]);
    OnlyHere(slots, k, slots[k].published);
    hide SlotOk, SlotsOk, NextDigest, Publishable, BlockHolds, Held, PublishedSlot;
    PublishedSlotOk(cfg, d, d', rows, slots[k], b);
    SlotsFrame(cfg, d, d', rows, rows, slots, k, b, PublishedSlot(cfg, slots[k], b));
  }

  lemma OnlyHere(slots: seq<Slot>, k: nat, i: nat)
    requires k < |slots| && i < |slots[k].blocks| && Held(slots)[slots[k].blocks[i]] == 1
    ensures forall l, j ::
      0 <= l < |slots| && 0 <= j < |slots[l].blocks| && slots[l].blocks[j] == slots[k].blocks[i] ==> l == k && j == i
  {
    forall l, j | 0 <= l < |slots| && 0 <= j < |slots[l].blocks| && slots[l].blocks[j] == slots[k].blocks[i]
      ensures l == k && j == i
    {
      OneHolder(slots, k, i, l, j);
    }
  }

  /** The block is known to the cache: the request gives up its own and reads the cached one. */
  lemma PublishKnownStep(cfg: Config, n: nat, st: Store, st': Store, slots: seq<Slot>, rows: seq<seq<Row>>, k: nat,
                         c: nat)
    requires cfg.blockSize >= 1 && Inv(cfg, n, st, slots, rows) && k < |slots| && Publishable(cfg, slots[k])
    requires slots[k].published < |slots[k].blocks|
    requires NextDigest(cfg, slots[k]) in st.index.entries && c == st.index.entries[NextDigest(cfg, slots[k])].block
    requires Accounted(n, st', Held(slots) + multiset{c} - multiset{slots[k].blocks[slots[k].published]})
    requires SameEntries(st.index, st'.index)
    ensures Inv(cfg, n, st', slots[k := PublishedSlot(cfg, slots[k], c)], rows)
  {
    var slot, d := slots[k], st.index.digestOf;
    var h := NextDigest(cfg, slot);
    assert SlotOk(cfg, d, rows, slot);
    PublishableRoom(cfg, d, rows, slot);
    assert EntryOk(cfg, rows, h, st.index.entries[h]);
    assert c in d && d[c] == h;
    assert BlockHolds(cfg, rows, c, slot.prompt, slot.published);
    hide SlotOk, Accounted, BlockHolds, Linked, Start, EntriesOk, EntryOk, PublishedSlot, NextDigest, Publishable,
      Stands;
    PublishedTable(cfg, slot, c);
    HeldSwapped(slots, k, slot.published, c, PublishedSlot(cfg, slot, c));
    PublishedSlotOk(cfg, d, d, rows, slot, c);
    EntriesFrame(cfg, rows, st.index, st'.index);
  }

  lemma PublishedTable(cfg: Config, slot: Slot, c: nat)
    requires Start(cfg, slot.published) + cfg.blockSize <= |slot.prompt| && slot.published < |slot.blocks|
    ensures PublishedSlot(cfg, slot, c).blocks == slot.blocks[slot.published := c]
  {
  }

  lemma HeldSwapped(slots: seq<Slot>, k: nat, i: nat, c: nat, slot': Slot)
    requires k < |slots| && i < |slots[k].blocks| && slot'.blocks == slots[k].blocks[i := c]
    ensures Held(slots[k := slot']) == Held(slots) + multiset{c} - multiset{slots[k].blocks[i]}
  {
    HeldIncludes(slots, k);
    HeldUpdate(slots, k, slot');
    HeldExchange(Held(slots), Held(slots[k := slot']), multiset(slots[k].blocks), slots[k].blocks[i], c);
  }

  lemma HeldExchange(held: multiset<nat>, held': multiset<nat>, own: multiset<nat>, b: nat, c: nat)
    requires held' + own == held + (own - multiset{b} + multiset{c}) && b in own && own <= held
    ensures held' == held + multiset{c} - multiset{b}
  {
    forall x: nat ensures held'[x] == (held + multiset{c} - multiset{b})[x] {
      assert (held' + own)[x] == (held + (own - multiset{b} + multiset{c}))[x];
    }
  }

  lemma EntriesFrame(cfg: Config, rows: seq<seq<Row>>, x: Index, y: Index)
    requires EntriesOk(cfg, rows, x.entries) && SameEntries(x, y)
    ensures EntriesOk(cfg, rows, y.entries)
  {
    forall h | h in y.entries ensures EntryOk(cfg, rows, h, y.entries[h]) {
      assert EntryOk(cfg, rows, h, x.entries[h]);
    }
  }

  // ---- rolling back, removing, adding -----------------------------------------------------

  /** The request cut to `length` positions and the blocks that they need. */
  function Cut(cfg: Config, slot: Slot, length: nat): (slot': Slot)
    requires cfg.blockSize >= 1 && CeilDiv(length, cfg.blockSize) <= |slot.blocks|
  {
    slot.(blocks := slot.blocks[..CeilDiv(length, cfg.blockSize)], numTokens := length,
          fed := if length < |slot.fed| then slot.fed[..length] else slot.fed)
  }

  lemma CutSlotOk(cfg: Config, digestOf: map<nat, Digest>, rows: seq<seq<Row>>, slot: Slot, length: nat)
    requires cfg.blockSize >= 1 && SlotOk(cfg, digestOf, rows, slot)
    requires Start(cfg, slot.published) <= length <= slot.numTokens
    ensures CeilDiv(length, cfg.blockSize) <= |slot.blocks| && SlotOk(cfg, digestOf, rows, Cut(cfg, slot, length))
  {
    CeilDivCovers(cfg, length, |slot.blocks|);
    CeilDivCovers(cfg, length, CeilDiv(length, cfg.blockSize));
    var slot' := Cut(cfg, slot, length);
    hide Chain, Start;
    assert slot'.fed[..Start(cfg, slot.published)] == slot.fed[..Start(cfg, slot.published)];
    forall i | 0 <= i < |slot'.blocks| ensures TableOk(cfg, digestOf, slot', i) {
      assert TableOk(cfg, digestOf, slot, i);
    }
    forall i, o | 0 <= i < |slot'.blocks| && 0 <= o < cfg.blockSize ensures RowOk(cfg, rows, slot', i, o) {
      assert RowOk(cfg, rows, slot, i, o);
      var q := Start(cfg, i) + o;
      if q < |slot'.fed| { assert slot'.fed[..q + 1] == slot.fed[..q + 1]; }
    }
  }

  lemma HeldCut(slots: seq<Slot>, k: nat, slot': Slot, m: nat)
    requires k < |slots| && m <= |slots[k].blocks| && slot'.blocks == slots[k].blocks[..m]
    ensures Held(slots) == Held(slots[k := slot']) + multiset(slots[k].blocks[m..])
  {
    HeldUpdate(slots, k, slot');
    var own, kept, cut := slots[k].blocks, slots[k].blocks[..m], slots[k].blocks[m..];
    assert own == kept + cut;
    assert Held(slots) == Held(slots) + multiset(kept) - multiset(kept);
    assert Held(slots[k := slot']) + multiset(cut)
      == Held(slots[k := slot']) + (multiset(kept) + multiset(cut)) - multiset(kept);
  }

  /** Giving back the blocks behind the cut. */
  lemma CutStep(cfg: Config, n: nat, st: Store, st': Store, slots: seq<Slot>, rows: seq<seq<Row>>, k: nat, length: nat)
    requires cfg.blockSize >= 1 && Inv(cfg, n, st, slots, rows) && k < |slots|
    requires Start(cfg, slots[k].published) <= length <= slots[k].numTokens
    requires CeilDiv(length, cfg.blockSize) <= |slots[k].blocks|
    requires Accounted(n, st', Held(slots[k := Cut(cfg, slots[k], length)])) && SameEntries(st.index, st'.index)
    ensures Inv(cfg, n, st', slots[k := Cut(cfg, slots[k], length)], rows)
  {
    var d := st.index.digestOf;
    assert SlotOk(cfg, d, rows, slots[k]);
    CutSlotOk(cfg, d, rows, slots[k], length);
    hide SlotOk, Accounted, EntriesOk, Cut;
    EntriesFrame(cfg, rows, st.index, st'.index);
  }

  lemma RemoveStep(cfg: Config, n: nat, st: Store, st': Store, slots: seq<Slot>, rows: seq<seq<Row>>, k: nat)
    requires Inv(cfg, n, st, slots, rows) && k < |slots|
    requires Accounted(n, st', Held(slots[..k] + slots[k + 1..])) && SameEntries(st.index, st'.index)
    ensures Inv(cfg, n, st', slots[..k] + slots[k + 1..], rows)
  {
    hide SlotOk, Accounted, EntryOk;
    EntriesFrame(cfg, rows, st.index, st'.index);
  }

  /** The full blocks of a prompt, as the prefix cache knows them. */
  function Keys(cfg: Config, prompt: seq<Token>): (keys: seq<Key>)
    requires cfg.blockSize >= 1
    ensures |keys| == |prompt| / cfg.blockSize
  {
    seq(|prompt| / cfg.blockSize, i requires 0 <= i < |prompt| / cfg.blockSize =>
      FullBlockFits(cfg, prompt, i);
      Key(Chain(cfg, prompt, i + 1).value, BlockTokens(cfg, prompt, i)))
  }

  lemma KeyAt(cfg: Config, prompt: seq<Token>, i: nat)
    requires cfg.blockSize >= 1 && i < |prompt| / cfg.blockSize
    ensures Start(cfg, i) + cfg.blockSize == Start(cfg, i + 1) <= |prompt|
    ensures var h := HashBlock(cfg, Chain(cfg, prompt, i), BlockTokens(cfg, prompt, i));
            Keys(cfg, prompt)[i] == Key(h, BlockTokens(cfg, prompt, i)) && Chain(cfg, prompt, i + 1) == Some(h)
  {
    FullBlockFits(cfg, prompt, i);
  }

  /** Key `i` of a prompt: the tokens of its block, hashed behind the digest of the block before. */
  ghost predicate KeyIs(cfg: Config, prompt: seq<Token>, keys: seq<Key>, i: nat)
    requires i < |keys|
  {
    && 0 <= i * cfg.blockSize <= (i + 1) * cfg.blockSize <= |prompt|
    && keys[i].tokens == prompt[i * cfg.blockSize..(i + 1) * cfg.blockSize]
    && keys[i].digest == cfg.hash((if i == 0 then [] else keys[i - 1].digest) + AllBytes(keys[i].tokens))
  }

  lemma KeySpelledOut(cfg: Config, prompt: seq<Token>, i: nat)
    requires cfg.blockSize >= 1 && i < |Keys(cfg, prompt)|
    ensures KeyIs(cfg, prompt, Keys(cfg, prompt), i)
  {
    KeyAt(cfg, prompt, i);
    if i > 0 { KeyAt(cfg, prompt, i - 1); }
    StartIs(cfg, i);
    StartIs(cfg, i + 1);
    hide Keys, Start, AllBytes;
  }

  lemma KeysSpelledOut(cfg: Config, prompt: seq<Token>)
    requires cfg.blockSize >= 1
    ensures forall i :: 0 <= i < |Keys(cfg, prompt)| ==> KeyIs(cfg, prompt, Keys(cfg, prompt), i)
  {
    hide *;
    forall i: nat | i < |Keys(cfg, prompt)| ensures KeyIs(cfg, prompt, Keys(cfg, prompt), i) {
      KeySpelledOut(cfg, prompt, i);
    }
  }

  lemma StartIs(cfg: Config, i: nat)
    ensures Start(cfg, i) == i * cfg.blockSize
  {
  }

  lemma FullBlockFits(cfg: Config, prompt: seq<Token>, i: nat)
    requires cfg.blockSize >= 1 && i < |prompt| / cfg.blockSize
    ensures Start(cfg, i) + cfg.blockSize == Start(cfg, i + 1) <= |prompt|
  {
    StartStep(cfg, i);
    StartMonotone(cfg, i + 1, |prompt| / cfg.blockSize);
    PositionSplits(cfg, |prompt|);
  }

  /** How many cached blocks a new request takes over: the longest run of known leading blocks, less
      one if that would leave no token of the prompt to run. */
  function Hit(cfg: Config, x: Index, prompt: seq<Token>): (m: int)
    requires cfg.blockSize >= 1
    ensures m <= |prompt| / cfg.blockSize
  {
    var found := |Found(x, Keys(cfg, prompt))|;
    FoundWithin(x, Keys(cfg, prompt));
    if Start(cfg, found) >= |prompt| then found - 1 else found
  }

  lemma {:induction false} FoundWithin(x: Index, keys: seq<Key>)
    ensures |Found(x, keys)| <= |keys|
    decreases |keys|
  {
    if keys != [] { FoundWithin(x, keys[1..]); }
  }

  lemma {:induction false} FoundIsKnown(x: Index, keys: seq<Key>, i: nat)
    requires i < |Found(x, keys)|
    ensures i < |keys| && keys[i].digest in x.entries && Found(x, keys)[i] == x.entries[keys[i].digest].block
    decreases i
  {
    if i > 0 { FoundIsKnown(x, keys[1..], i - 1); }
  }

  /** A new request over its first `m` cached blocks. */
  function NewSlot(cfg: Config, x: Index, prompt: seq<Token>, m: nat): (slot: Slot)
    requires cfg.blockSize >= 1 && m <= |Found(x, Keys(cfg, prompt))| && Start(cfg, m) <= |prompt|
  {
    Slot(Found(x, Keys(cfg, prompt))[..m], Start(cfg, m), prompt, m, Chain(cfg, prompt, m), prompt[..Start(cfg, m)])
  }

  /** The cached blocks hold exactly the rows of the prompt. */
  lemma NewSlotOk(cfg: Config, n: nat, st: Store, slots: seq<Slot>, rows: seq<seq<Row>>, prompt: seq<Token>, m: nat)
    requires cfg.asked(prompt)
    requires cfg.blockSize >= 1 && Inv(cfg, n, st, slots, rows) && m <= |Found(st.index, Keys(cfg, prompt))|
    requires Start(cfg, m) <= |prompt|
    ensures SlotOk(cfg, st.index.digestOf, rows, NewSlot(cfg, st.index, prompt, m))
  {
    var x, slot := st.index, NewSlot(cfg, st.index, prompt, m);
    hide Chain, Start, EntriesOk, Accounted, SlotsOk, TableOk, RowOk, Found;
    forall i: nat | i < m ensures TableOk(cfg, x.digestOf, slot, i) {
      NewBlockOk(cfg, n, st, slots, rows, prompt, m, i, 0);
    }
    forall i: nat, o: nat | i < m && o < cfg.blockSize ensures RowOk(cfg, rows, slot, i, o) {
      NewBlockOk(cfg, n, st, slots, rows, prompt, m, i, o);
    }
  }

  lemma NewBlockOk(cfg: Config, n: nat, st: Store, slots: seq<Slot>, rows: seq<seq<Row>>, prompt: seq<Token>, m: nat,
                   i: nat, o: nat)
    requires cfg.asked(prompt)
    requires cfg.blockSize >= 1 && Inv(cfg, n, st, slots, rows) && m <= |Found(st.index, Keys(cfg, prompt))|
    requires Start(cfg, m) <= |prompt|
    requires i < m && o < cfg.blockSize
    ensures var slot := NewSlot(cfg, st.index, prompt, m);
        TableOk(cfg, st.index.digestOf, slot, i) && RowOk(cfg, rows, slot, i, o)
  {
    var x, slot := st.index, NewSlot(cfg, st.index, prompt, m);
    FoundIsKnown(x, Keys(cfg, prompt), i);
    FullBlockFits(cfg, prompt, i);
    StartMonotone(cfg, i + 1, m);
    var h := Keys(cfg, prompt)[i].digest;
    hide BlockOk, SlotOk;
    assert EntryOk(cfg, rows, h, x.entries[h]) && Stands(cfg, h, prompt, i);
    assert BlockHolds(cfg, rows, slot.blocks[i], prompt, i);
    assert x.digestOf[slot.blocks[i]] == h && Some(h) == Chain(cfg, prompt, i + 1);
    hide Chain, Start, EntryOk, EntriesOk, Stands, SlotsOk, Accounted, Keys, Found;
    var q := Start(cfg, i) + o;
    assert slot.fed[..q + 1] == prompt[..q + 1];
  }

  lemma AddStep(cfg: Config, n: nat, st: Store, st': Store, slots: seq<Slot>, rows: seq<seq<Row>>, slot: Slot)
    requires Inv(cfg, n, st, slots, rows) && SlotOk(cfg, st.index.digestOf, rows, slot)
    requires Accounted(n, st', Held(slots) + multiset(slot.blocks)) && SameEntries(st.index, st'.index)
    ensures Inv(cfg, n, st', slots + [slot], rows)
  {
    hide SlotOk, Accounted, EntryOk;
    assert (slots + [slot])[..|slots|] == slots;
    EntriesFrame(cfg, rows, st.index, st'.index);
  }

  // ---- what it means ----------------------------------------------------------------------

  /** Through its block table, every request reads exactly its own sequence, position by position. */
  lemma ReadsOwnSequence(cfg: Config, n: nat, st: Store, slots: seq<Slot>, rows: seq<seq<Row>>, k: nat, p: nat)
    requires cfg.blockSize >= 1 && Inv(cfg, n, st, slots, rows) && k < |slots| && p < |slots[k].fed|
    ensures var i := BlockAt(cfg, p);
            && i < |slots[k].blocks| && slots[k].blocks[i] < |rows| && OffsetAt(cfg, p) < |rows[slots[k].blocks[i]]|
            && rows[slots[k].blocks[i]][OffsetAt(cfg, p)] == slots[k].fed[..p + 1]
  {
    var slot, i := slots[k], BlockAt(cfg, p);
    assert SlotOk(cfg, st.index.digestOf, rows, slot);
    PositionSplits(cfg, p);
    hide Start, TableOk, Chain, EntriesOk, Accounted, SlotsOk;
    if i >= |slot.blocks| { StartMonotone(cfg, |slot.blocks|, i); }
    assert RowOk(cfg, rows, slot, i, OffsetAt(cfg, p));
  }

  /** Two requests share a block only where their prompts agree up to its end. */
  lemma SharedBlocksAgree(cfg: Config, n: nat, st: Store, slots: seq<Slot>, rows: seq<seq<Row>>, k: nat, i: nat, l: nat,
                          j: nat)
    requires Sound(cfg) && Inv(cfg, n, st, slots, rows)
    requires k < |slots| && i < |slots[k].blocks| && l < |slots| && j < |slots[l].blocks|
    requires slots[k].blocks[i] == slots[l].blocks[j] && (k, i) != (l, j)
    ensures i == j && i < slots[k].published && i < slots[l].published
    ensures var e := Start(cfg, i + 1);
        e <= |slots[k].prompt| && e <= |slots[l].prompt| && slots[k].prompt[..e] == slots[l].prompt[..e]
  {
    hide Sound, Inv, Chain, Start;
    PublishedAt(cfg, n, st, slots, rows, k, i);
    PublishedAt(cfg, n, st, slots, rows, l, j);
    if i >= slots[k].published {
      PrivateBlock(cfg, n, st, slots, rows, k, i);
      OneHolder(slots, k, i, l, j);
    } else {
      ChainIsInjective(cfg, slots[k].prompt, i + 1, slots[l].prompt, j + 1);
    }
  }

  /** A block is in the directory exactly if it is published, and then under the digest of its prompt
      blocks. */
  lemma PublishedAt(cfg: Config, n: nat, st: Store, slots: seq<Slot>, rows: seq<seq<Row>>, k: nat, i: nat)
    requires Inv(cfg, n, st, slots, rows) && k < |slots| && i < |slots[k].blocks|
    ensures var slot, d := slots[k], st.index.digestOf;
            && cfg.asked(slot.prompt) && (slot.blocks[i] in d <==> i < slot.published)
            && (i < slot.published ==>
                Start(cfg, i + 1) <= |slot.prompt| && Some(d[slot.blocks[i]]) == Chain(cfg, slot.prompt, i + 1))
  {
    assert SlotOk(cfg, st.index.digestOf, rows, slots[k]);
    hide RowOk, Chain, EntriesOk, Accounted, SlotsOk, Start;
    assert TableOk(cfg, st.index.digestOf, slots[k], i);
    if i < slots[k].published { StartMonotone(cfg, i + 1, slots[k].published); }
  }

  /** Without requests, every block can be handed out again. */
  lemma NothingLeaks(cfg: Config, n: nat, st: Store, rows: seq<seq<Row>>, b: nat)
    requires Inv(cfg, n, st, [], rows) && b < n
    ensures b in st.free || b in st.index.evictable
  {
    BlocksArePartitioned(n, st, Held([]), b);
  }

  /** The pool after it was offered the request's next block, and the block to read from now on. A
      block that the cache knows already is given back. */
  ghost function PublishedPool(cfg: Config, st: Store, slot: Slot): (r: Option<(Store, nat)>)
    requires Linked(st.index) && Start(cfg, slot.published) + cfg.blockSize <= |slot.prompt|
    requires slot.published < |slot.blocks|
  {
    var b := slot.blocks[slot.published];
    match Published(st.index, NextDigest(cfg, slot), NextTokens(cfg, slot), b)
    case None => None
    case Some((x, c, duplicate)) =>
      if !duplicate then Some((st.(index := x), c))
      else if !Linked(x) then None
      else
        match Released(st.(index := x), b)
        case None => None
        case Some(st') => Some((st', c))
  }

  /** Publishing never fails, and every request goes on reading its own sequence. */
  lemma PublishStep(cfg: Config, n: nat, st: Store, slots: seq<Slot>, rows: seq<seq<Row>>, k: nat)
    requires Sound(cfg) && Inv(cfg, n, st, slots, rows) && k < |slots| && Publishable(cfg, slots[k])
    ensures slots[k].published < |slots[k].blocks| && Linked(st.index)
    ensures var r := PublishedPool(cfg, st, slots[k]);
            r.Some? && Inv(cfg, n, r.value.0, slots[k := PublishedSlot(cfg, slots[k], r.value.1)], rows)
  {
    var slot := slots[k];
    PublishableHere(cfg, n, st, slots, rows, k);
    hide Inv, Publishable, NextDigest, NextTokens, PublishedSlot, Published, Released, Start;
    if NextDigest(cfg, slot) in st.index.entries {
      PublishKnownPool(cfg, n, st, slots, rows, k);
    } else {
      PublishNewStep(cfg, n, st, slots, rows, k);
    }
  }

  lemma PublishableHere(cfg: Config, n: nat, st: Store, slots: seq<Slot>, rows: seq<seq<Row>>, k: nat)
    requires Sound(cfg) && Inv(cfg, n, st, slots, rows) && k < |slots| && Publishable(cfg, slots[k])
    ensures cfg.blockSize >= 1 && slots[k].published < |slots[k].blocks| && Linked(st.index)
    ensures Start(cfg, slots[k].published) + cfg.blockSize <= |slots[k].prompt|
  {
    assert SlotOk(cfg, st.index.digestOf, rows, slots[k]);
    PublishableRoom(cfg, st.index.digestOf, rows, slots[k]);
  }

  /** Publishing a block that the cache knows, as a whole: the cached block gains a reference, the
      request's own is free again. */
  lemma PublishKnownPool(cfg: Config, n: nat, st: Store, slots: seq<Slot>, rows: seq<seq<Row>>, k: nat)
    requires cfg.blockSize >= 1 && Inv(cfg, n, st, slots, rows) && k < |slots| && Publishable(cfg, slots[k])
    requires slots[k].published < |slots[k].blocks|
    requires NextDigest(cfg, slots[k]) in st.index.entries
    ensures var slot := slots[k];
            var b, h := slot.blocks[slot.published], NextDigest(cfg, slot);
            var r := Published(st.index, h, NextTokens(cfg, slot), b);
            && r.Some? && r.value.2 && r.value.1 == st.index.entries[h].block && Linked(r.value.0)
            && var freed := Released(st.(index := r.value.0), b);
            freed.Some? && Inv(cfg, n, freed.value, slots[k := PublishedSlot(cfg, slot, r.value.1)], rows)
  {
    var slot := slots[k];
    var b, h := slot.blocks[slot.published], NextDigest(cfg, slot);
    assert SlotOk(cfg, st.index.digestOf, rows, slot);
    PublishableRoom(cfg, st.index.digestOf, rows, slot);
    assert EntryOk(cfg, rows, h, st.index.entries[h]);
    PrivateBlock(cfg, n, st, slots, rows, k, slot.published);
    PublishKeeps(n, st, Held(slots), h, NextTokens(cfg, slot), b);
    var (x, c, duplicate) := Published(st.index, h, NextTokens(cfg, slot), b).value;
    ReleaseKeeps(n, st.(index := x), Held(slots) + multiset{c}, b);
    hide SlotOk, SlotsOk, EntriesOk, EntryOk, PublishedSlot, NextDigest, NextTokens, Publishable;
    PublishKnownStep(cfg, n, st, Released(st.(index := x), b).value, slots, rows, k, c);
  }

  // ---- the cache --------------------------------------------------------------------------

  datatype Outcome = Appended | OutOfMemory | Refused

  /** As far as both go, what was fed is the prompt. */
  ghost predicate FollowsPrompt(slot: Slot)
  {
    forall p :: 0 <= p < |slot.fed| && p < |slot.prompt| ==> slot.fed[p] == slot.prompt[p]
  }

  /** A request that has at most claimed blocks and positions. */
  ghost predicate Grown(a: Slot, b: Slot)
  {
    b == a.(blocks := b.blocks, numTokens := b.numTokens) && a.blocks <= b.blocks
  }

  /** Request `k` has one block more, and nothing else is different. */
  ghost predicate OneMore(before: seq<Slot>, after: seq<Slot>, k: nat)
    requires k < |before|
  {
    exists b :: after == before[k := before[k].(blocks := before[k].blocks + [b])]
  }

  lemma OneMoreIsGrown(first: seq<Slot>, before: seq<Slot>, after: seq<Slot>, k: nat)
    requires k < |first| == |before| && before == first[k := before[k]] && Grown(first[k], before[k])
    requires OneMore(before, after, k)
    ensures |after| == |first| && after == first[k := after[k]] && Grown(first[k], after[k])
    ensures after[k].numTokens == before[k].numTokens && |after[k].blocks| == |before[k].blocks| + 1
  {
  }

  lemma ClaimIsGrown(first: seq<Slot>, before: seq<Slot>, k: nat, length: nat)
    requires k < |first| == |before| && before == first[k := before[k]] && Grown(first[k], before[k])
    ensures var after := before[k := before[k].(numTokens := length)];
            after == first[k := after[k]] && Grown(first[k], after[k])
  {
  }

  /** Blocks were added only as far as the positions need them. */
  ghost predicate NoSpare(cfg: Config, a: Slot, b: Slot)
  {
    |b.blocks| > |a.blocks| ==> (|b.blocks| - 1) * cfg.blockSize < b.numTokens
  }

  lemma ClaimSparesNone(cfg: Config, a: Slot, b: Slot, length: nat)
    requires cfg.blockSize >= 1 && (|b.blocks| == |a.blocks| || |b.blocks| <= CeilDiv(length, cfg.blockSize))
    ensures NoSpare(cfg, a, b.(numTokens := length))
  {
    if |b.blocks| <= CeilDiv(length, cfg.blockSize) { NoSpareBlock(cfg, |b.blocks|, length); }
  }

  lemma NoSpareAtFirst(cfg: Config, a: Slot)
    ensures NoSpare(cfg, a, a)
  {
  }

  lemma GrownIsReflexive(a: Slot)
    ensures Grown(a, a)
  {
  }

  class PagedKVCache {
    const cfg: Config
    const pool: BlockPool
    var slots: seq<Slot>
    var rows: seq<seq<Row>>

    ghost predicate Valid()
      reads this, pool, pool.prefixCache
    {
      Sound(cfg) && Inv(cfg, |rows|, pool.Value(), slots, rows) && forall k :: 0 <= k < |slots| ==>
        FollowsPrompt(slots[k])
    }

    constructor (cfg: Config, numBlocks: nat, caching: bool)
      requires Sound(cfg)
      ensures Valid() && slots == [] && |rows| == numBlocks && this.cfg == cfg && pool.caching == caching
      ensures fresh(pool) && fresh(pool.prefixCache)
    {
      this.cfg := cfg;
      pool := new BlockPool(numBlocks, caching);
      slots := [];
      rows := seq(numBlocks, b => seq(cfg.blockSize, o => []));
    }

    /** Layer 0 of a step: every request claims its new positions and the blocks for them. Fails only
        when every block of the pool is in use. */
    method Reserve(news: seq<seq<Token>>) returns (ok: bool)
      requires Valid() && |news| == |slots|
      modifies this`slots, pool, pool.prefixCache
      ensures Valid() && |slots| == |old(slots)|
      ensures forall k :: 0 <= k < |slots| ==> Grown(old(slots)[k], slots[k])
      ensures forall k :: 0 <= k < |slots| ==>
                slots[k].numTokens == old(slots)[k].numTokens + |news[k]|
                  || (!ok && slots[k].numTokens == old(slots)[k].numTokens)
      ensures !ok ==> forall b: nat :: b < |rows| ==> Held(slots)[b] > 0
      ensures ok ==> forall k :: 0 <= k < |slots| ==> NoSpare(cfg, old(slots)[k], slots[k])
    {
      hide Valid, NoSpare;
      ghost var before := slots;
      var k := 0;
      while k < |slots|
        invariant k <= |slots| == |before| && Valid()
        invariant forall l :: 0 <= l < k ==>
            Grown(before[l], slots[l]) && slots[l].numTokens == before[l].numTokens + |news[l]|
              && NoSpare(cfg, before[l], slots[l])
        invariant forall l :: k <= l < |slots| ==> slots[l] == before[l]
      {
        if news[k] != [] {
          var newTotal := slots[k].numTokens + |news[k]|;
          var ok := Grow(k, newTotal);
          if !ok {
            return false;
          }
        } else {
          NoSpareAtFirst(cfg, slots[k]);
        }
        k := k + 1;
      }
      return true;
    }

    /** Request `k` gets the blocks for `newTotal` positions, one by one, and claims the positions. */
    method Grow(k: nat, newTotal: nat) returns (ok: bool)
      requires Valid() && k < |slots| && slots[k].numTokens <= newTotal
      modifies this`slots, pool, pool.prefixCache
      ensures Valid() && |slots| == |old(slots)| && slots == old(slots)[k := slots[k]] && Grown(old(slots)[k], slots[k])
      ensures slots[k].numTokens == if ok then newTotal else old(slots)[k].numTokens
      ensures ok ==> NoSpare(cfg, old(slots)[k], slots[k])
      ensures !ok ==> forall b: nat :: b < |rows| ==> Held(slots)[b] > 0
    {
      assert cfg.blockSize >= 1;
      hide Valid, Held, CeilDiv, Grown, OneMore, NoSpare;
      ghost var first := slots;
      GrownIsReflexive(slots[k]);
      while |slots[k].blocks| < CeilDiv(newTotal, cfg.blockSize)
        invariant Valid() && |slots| == |first| && slots == first[k := slots[k]]
        invariant Grown(first[k], slots[k]) && slots[k].numTokens == first[k].numTokens
        invariant |slots[k].blocks| == |first[k].blocks| || |slots[k].blocks| <= CeilDiv(newTotal, cfg.blockSize)
        decreases CeilDiv(newTotal, cfg.blockSize) - |slots[k].blocks|
      {
        ghost var before := slots;
        var ok := GrowByOne(k);
        if !ok {
          return false;
        }
        OneMoreIsGrown(first, before, slots, k);
      }
      ClaimSparesNone(cfg, first[k], slots[k], newTotal);
      ClaimIsGrown(first, slots, k, newTotal);
      Claim(k, newTotal);
      return true;
    }

    method GrowByOne(k: nat) returns (ok: bool)
      requires Valid() && k < |slots|
      modifies this`slots, pool, pool.prefixCache
      ensures Valid()
      ensures ok ==> OneMore(old(slots), slots, k)
      ensures !ok ==> slots == old(slots) && forall b: nat :: b < |rows| ==> Held(slots)[b] > 0
    {
      hide SlotOk, BlockOk, EntryOk;
      ghost var st := pool.Value();
      var b := pool.Allocate();
      if b.None? {
        AllInUse(|rows|, st, Held(slots));
        return false;
      }
      ReserveStep(cfg, |rows|, st, slots, rows, k);
      hide Inv, Sound;
      slots := slots[k := slots[k].(blocks := slots[k].blocks + [b.value])];
      return true;
    }

    method Claim(k: nat, newTotal: nat)
      requires Valid() && k < |slots| && slots[k].numTokens <= newTotal
      requires CeilDiv(newTotal, cfg.blockSize) <= |slots[k].blocks|
      modifies this`slots
      ensures Valid() && slots == old(slots)[k := old(slots)[k].(numTokens := newTotal)]
    {
      CeilDivCovers(cfg, newTotal, |slots[k].blocks|);
      assert SlotOk(cfg, pool.Value().index.digestOf, rows, slots[k]);
      AdvanceStep(cfg, |rows|, pool.Value(), slots, rows, k, newTotal);
      hide Inv, Sound;
      slots := slots[k := slots[k].(numTokens := newTotal)];
    }

    /** The layers of a step write the rows of the new tokens, each at its own position. */
    method WriteRows(news: seq<seq<Token>>)
      requires Valid() && |news| == |slots|
      requires forall k :: 0 <= k < |slots| ==> slots[k].numTokens == |slots[k].fed| + |news[k]|
      requires forall k :: 0 <= k < |slots| ==> FollowsPrompt(slots[k].(fed := slots[k].fed + news[k]))
      modifies this`slots, this`rows
      ensures Valid() && |slots| == |old(slots)| && |rows| == |old(rows)|
      ensures forall k :: 0 <= k < |slots| ==> slots[k] == old(slots)[k].(fed := old(slots)[k].fed + news[k])
    {
      hide Valid;
      ghost var before := slots;
      var k := 0;
      while k < |slots|
        invariant k <= |slots| == |before| && |rows| == |old(rows)| && Valid()
        invariant forall l :: 0 <= l < k ==> slots[l] == before[l].(fed := before[l].fed + news[l])
        invariant forall l :: k <= l < |slots| ==> slots[l] == before[l]
      {
        WriteSlotRows(k, news[k]);
        k := k + 1;
      }
    }

    method WriteSlotRows(k: nat, tokens: seq<Token>)
      requires Valid() && k < |slots| && slots[k].numTokens == |slots[k].fed| + |tokens|
      requires FollowsPrompt(slots[k].(fed := slots[k].fed + tokens))
      modifies this`slots, this`rows
      ensures Valid() && |rows| == |old(rows)|
      ensures slots == old(slots)[k := old(slots)[k].(fed := old(slots)[k].fed + tokens)]
    {
      hide Valid, FollowsPrompt;
      ghost var fed := slots[k].fed;
      var i := 0;
      assert fed + tokens[..0] == fed;
      while i < |tokens|
        invariant i <= |tokens| && Valid() && |rows| == |old(rows)|
        invariant slots == old(slots)[k := old(slots)[k].(fed := fed + tokens[..i])]
      {
        assert fed + tokens[..i] + [tokens[i]] == fed + tokens[..i + 1];
        assert fed + tokens == fed + tokens[..i + 1] + tokens[i + 1..];
        assert FollowsPrompt(slots[k].(fed := fed + tokens[..i + 1])) by {
          PrefixFollows(slots[k], fed + tokens, |fed| + i + 1);
        }
        WriteOne(k, tokens[i]);
        i := i + 1;
      }
      assert tokens[..i] == tokens;
    }

    method WriteOne(k: nat, token: Token)
      requires Valid() && k < |slots| && |slots[k].fed| < slots[k].numTokens
      requires FollowsPrompt(slots[k].(fed := slots[k].fed + [token]))
      modifies this`slots, this`rows
      ensures Valid() && |rows| == |old(rows)|
      ensures slots == old(slots)[k := old(slots)[k].(fed := old(slots)[k].fed + [token])]
    {
      WriteStep(cfg, |rows|, pool.Value(), slots, rows, k, token);
      hide Inv, Sound;
      var position := |slots[k].fed|;
      var block, offset := slots[k].blocks[BlockAt(cfg, position)], OffsetAt(cfg, position);
      rows := Written(rows, block, offset, slots[k].fed + [token]);
      slots := slots[k := slots[k].(fed := slots[k].fed + [token])];
    }

    /** Every prompt block of request `k` that is full goes to the prefix cache. If the cache knows it
        already, the request takes over the cached block; the sequence it reads does not change. */
    method PublishFilledBlocks(k: nat)
      requires Valid() && k < |slots| && |slots[k].fed| == slots[k].numTokens
      modifies this`slots, pool, pool.prefixCache
      ensures Valid() && |slots| == |old(slots)| && slots == old(slots)[k := slots[k]]
      ensures SameSequence(old(slots)[k], slots[k])
      ensures slots[k].published == Most(old(slots)[k].published, Filled(cfg, old(slots)[k]))
      ensures AllPublished(cfg, slots[k])
    {
      BlockSizePositive();
      hide Valid, Publishable, FollowsPrompt, Filled, AllPublished, SameSequence;
      ghost var first := slots;
      SameAsItself(slots[k]);
      var target := Filled(cfg, slots[k]);
      assert Filled(cfg, slots[k]) == target;
      while slots[k].published < target
        invariant Valid() && |slots| == |first| && slots == first[k := slots[k]]
        invariant SameSequence(first[k], slots[k]) && |slots[k].fed| == slots[k].numTokens
        invariant slots[k].published == first[k].published || slots[k].published <= target
        invariant Filled(cfg, slots[k]) == target
        decreases target - slots[k].published
      {
        ghost var before := slots[k];
        PublishNext(k);
        StillSame(first[k], before, slots[k]);
      }
      FilledIsAll(cfg, slots[k]);
    }

    lemma Follows(k: nat)
      requires Valid() && k < |slots|
      ensures FollowsPrompt(slots[k])
    {
    }

    method PublishNext(k: nat)
      requires Valid() && k < |slots| && |slots[k].fed| == slots[k].numTokens
      requires slots[k].published < Filled(cfg, slots[k])
      modifies this`slots, pool, pool.prefixCache
      ensures Valid() && |slots| == |old(slots)| && slots == old(slots)[k := slots[k]]
      ensures SameSequence(old(slots)[k], slots[k]) && slots[k].published == old(slots)[k].published + 1
      ensures Filled(cfg, slots[k]) == Filled(cfg, old(slots)[k])
    {
      hide Valid, Publishable, FollowsPrompt, Filled;
      Follows(k);
      FilledIsPublishable(cfg, slots[k]);
      PublishOne(k);
    }

    method PublishOne(k: nat)
      requires Valid() && k < |slots| && Publishable(cfg, slots[k])
      modifies this`slots, pool, pool.prefixCache
      ensures Valid() && |slots| == |old(slots)| && slots == old(slots)[k := slots[k]]
      ensures SameSequence(old(slots)[k], slots[k]) && slots[k].published == old(slots)[k].published + 1
      ensures Filled(cfg, slots[k]) == Filled(cfg, old(slots)[k])
    {
      PublishStep(cfg, |rows|, pool.Value(), slots, rows, k);
      hide Inv, Sound, Published, Released, Publishable, NextTokens;
      var canonical := PublishBlock(slots[k]);
      hide PublishedPool;
      slots := slots[k := PublishedSlot(cfg, slots[k], canonical)];
    }

    method PublishBlock(slot: Slot) returns (canonical: nat)
      requires Linked(pool.Value().index) && Start(cfg, slot.published) + cfg.blockSize <= |slot.prompt|
      requires slot.published < |slot.blocks|
      requires PublishedPool(cfg, pool.Value(), slot).Some?
      modifies pool, pool.prefixCache
      ensures PublishedPool(cfg, old(pool.Value()), slot) == Some((pool.Value(), canonical))
    {
      var tokens, block := NextTokens(cfg, slot), slot.blocks[slot.published];
      hide Published, Released, Linked, BlockTokens;
      var c, duplicate := pool.prefixCache.Publish(HashBlock(cfg, slot.parent, tokens), tokens, block);
      if duplicate {
        var freed := pool.Free(block);
      }
      canonical := c.value;
    }

    /** One forward step: claims positions, writes rows, publishes filled prompt blocks. Out of blocks,
        it stops with positions claimed but nothing written. */
    method AppendKvPacked(news: seq<seq<Token>>) returns (outcome: Outcome)
      requires Valid() && Settled()
      requires |news| == |slots| ==> forall k :: 0 <= k < |slots| ==>
          FollowsPrompt(slots[k].(fed := slots[k].fed + news[k]))
      modifies this, pool, pool.prefixCache
      ensures Valid() && |slots| == |old(slots)| && |rows| == |old(rows)|
      ensures outcome == Refused <==> |news| != |old(slots)|
      ensures outcome == Refused ==> slots == old(slots)
      ensures outcome == OutOfMemory ==> forall k :: 0 <= k < |slots| ==> Grown(old(slots)[k], slots[k])
      ensures outcome == OutOfMemory ==> forall b: nat :: b < |rows| ==> Held(slots)[b] > 0
      ensures outcome == Appended ==> Settled()
      ensures outcome == Appended && pool.caching ==> forall k :: 0 <= k < |slots| ==> AllPublished(cfg, slots[k])
      ensures !pool.caching ==> forall k :: 0 <= k < |slots| ==> slots[k].published == old(slots)[k].published
      ensures outcome == Appended ==> forall k :: 0 <= k < |slots| ==>
                slots[k].fed == old(slots)[k].fed + news[k] && slots[k].prompt == old(slots)[k].prompt
    {
      hide Inv, Sound;
      if |news| != |slots| {
        return Refused;
      }
      ghost var before := slots;
      var ok := Reserve(news);
      if !ok {
        return OutOfMemory;
      }
      forall k | 0 <= k < |slots| ensures FollowsPrompt(slots[k].(fed := slots[k].fed + news[k])) {
        assert FollowsPrompt(before[k].(fed := before[k].fed + news[k]));
      }
      WriteRows(news);
      if pool.caching {
        var k := 0;
        while k < |slots|
          invariant k <= |slots| == |before| && |rows| == |old(rows)| && Valid() && Settled()
          invariant forall l :: 0 <= l < |slots| ==>
              slots[l].fed == before[l].fed + news[l] && slots[l].prompt == before[l].prompt
          invariant forall l :: 0 <= l < k ==> AllPublished(cfg, slots[l])
        {
          PublishFilledBlocks(k);
          k := k + 1;
        }
      }
      return Appended;
    }

    /** Every claimed position is written. */
    ghost predicate Settled()
      reads this
    {
      forall k :: 0 <= k < |slots| ==> |slots[k].fed| == slots[k].numTokens
    }

    method FreeBlocks(blocks: seq<nat>, ghost held: multiset<nat>)
      requires Accounted(|rows|, pool.Value(), held + multiset(blocks))
      modifies pool, pool.prefixCache
      ensures Accounted(|rows|, pool.Value(), held) && SameEntries(old(pool.Value()).index, pool.Value().index)
    {
      var i := 0;
      assert blocks[0..] == blocks;
      while i < |blocks|
        invariant i <= |blocks| && Accounted(|rows|, pool.Value(), held + multiset(blocks[i..]))
        invariant SameEntries(old(pool.Value()).index, pool.Value().index)
      {
        ghost var now := held + multiset(blocks[i..]);
        assert blocks[i..] == [blocks[i]] + blocks[i + 1..];
        assert now - multiset{blocks[i]} == held + multiset(blocks[i + 1..]);
        ReleaseKeeps(|rows|, pool.Value(), now, blocks[i]);
        hide BlockOk;
        var ok := pool.Free(blocks[i]);
        i := i + 1;
      }
      assert held + multiset(blocks[i..]) == held;
    }

    /** Rolls request `k` back to `length` positions. Refuses to grow it or to cut into blocks that the
        prefix cache may share; at its own length nothing changes. */
    method TruncateTo(k: int, length: int) returns (ok: bool)
      requires Valid()
      modifies this`slots, pool, pool.prefixCache
      ensures Valid()
      ensures ok <==> 0 <= k < |old(slots)| && 0 <= length <= old(slots)[k].numTokens
                      && (length == old(slots)[k].numTokens || length >= Start(cfg, old(slots)[k].published))
      ensures slots == if ok && length < old(slots)[k].numTokens
          && CeilDiv(length, cfg.blockSize) <= |old(slots)[k].blocks|
                       then old(slots)[k := Cut(cfg, old(slots)[k], length)] else old(slots)
      ensures ok && length < old(slots)[k].numTokens ==>
                var before, after := old(slots)[k], slots[k];
                && after.blocks <= before.blocks && after.numTokens == length
                && length <= |after.blocks| * cfg.blockSize < length + cfg.blockSize
                && after.fed == before.fed[..if length < |before.fed| then length else |before.fed|]
      ensures ok ==> CeilDiv(length, cfg.blockSize) <= |old(slots)[k].blocks|
      ensures SameEntries(old(pool.Value()).index, pool.Value().index)
    {
      if !(0 <= k < |slots|) || length < 0 || length > slots[k].numTokens {
        return false;
      }
      assert SlotOk(cfg, pool.Value().index.digestOf, rows, slots[k]);
      CeilDivCovers(cfg, length, |slots[k].blocks|);
      if length == slots[k].numTokens {
        return true;
      }
      if length < Start(cfg, slots[k].published) {
        return false;
      }
      CutSpelledOut(cfg, slots[k], length);
      CutTo(k, length);
      return true;
    }

    method CutTo(k: nat, length: nat)
      requires Valid() && k < |slots| && Start(cfg, slots[k].published) <= length < slots[k].numTokens
      requires CeilDiv(length, cfg.blockSize) <= |slots[k].blocks|
      modifies this`slots, pool, pool.prefixCache
      ensures Valid() && slots == old(slots)[k := Cut(cfg, old(slots)[k], length)]
      ensures SameEntries(old(pool.Value()).index, pool.Value().index)
    {
      ghost var st := pool.Value();
      var slot, required := slots[k], CeilDiv(length, cfg.blockSize);
      var cut := Cut(cfg, slot, length);
      HeldCut(slots, k, cut, required);
      assert FollowsPrompt(cut) by { if length < |slot.fed| { PrefixFollows(slot, slot.fed, length); } }
      assert Inv(cfg, |rows|, st, slots, rows);
      FreeBlocks(slot.blocks[required..], Held(slots[k := cut]));
      CutStep(cfg, |rows|, st, pool.Value(), slots, rows, k, length);
      hide Inv, Sound;
      slots := slots[k := cut];
    }

    /** Gives back all blocks of request `k`; later requests move down by one. */
    method RemoveRequest(k: int) returns (ok: bool)
      requires Valid()
      modifies this`slots, pool, pool.prefixCache
      ensures Valid() && ok == (0 <= k < |old(slots)|)
      ensures slots == if ok then old(slots)[..k] + old(slots)[k + 1..] else old(slots)
      ensures SameEntries(old(pool.Value()).index, pool.Value().index)
    {
      hide Valid, SameEntries;
      if !(0 <= k < |slots|) {
        NothingChanged();
        return false;
      }
      Drop(k);
      return true;
    }

    lemma NothingChanged()
      ensures SameEntries(pool.Value().index, pool.Value().index)
    {
    }

    method Drop(k: nat)
      requires Valid() && k < |slots|
      modifies this`slots, pool, pool.prefixCache
      ensures Valid() && slots == old(slots)[..k] + old(slots)[k + 1..]
      ensures SameEntries(old(pool.Value()).index, pool.Value().index)
    {
      hide SameEntries, SlotOk, BlockOk;
      ghost var st := pool.Value();
      var rest := slots[..k] + slots[k + 1..];
      HeldRemove(slots, k);
      FreeBlocks(slots[k].blocks, Held(rest));
      RemoveStep(cfg, |rows|, st, pool.Value(), slots, rows, k);
      hide Inv, Sound, Held, FollowsPrompt;
      slots := rest;
    }

    /** The digests of the full blocks of a prompt. */
    method ComputeBlockHashes(prompt: seq<Token>) returns (keys: seq<Key>)
      requires cfg.blockSize >= 1
      ensures keys == Keys(cfg, prompt)
      ensures |keys| == |prompt| / cfg.blockSize
      ensures forall i :: 0 <= i < |keys| ==> KeyIs(cfg, prompt, keys, i)
    {
      hide KeyIs;
      KeysSpelledOut(cfg, prompt);
      keys := [];
      var parent: Option<Digest> := None;
      var i := 0;
      StartStep(cfg, 0);
      hide Start;
      while i < |prompt| / cfg.blockSize
        invariant i <= |prompt| / cfg.blockSize && keys == Keys(cfg, prompt)[..i]
        invariant Start(cfg, i) <= |prompt| && parent == Chain(cfg, prompt, i)
      {
        KeyAt(cfg, prompt, i);
        hide Keys, Chain;
        var tokens := BlockTokens(cfg, prompt, i);
        var digest := HashBlock(cfg, parent, tokens);
        keys := keys + [Key(digest, tokens)];
        parent := Some(digest);
        i := i + 1;
      }
    }

    method IncrefAll(blocks: seq<nat>, ghost held: multiset<nat>)
      requires Accounted(|rows|, pool.Value(), held)
      requires forall i :: 0 <= i < |blocks| ==> blocks[i] in pool.Value().index.digestOf
      modifies pool.prefixCache
      ensures Accounted(|rows|, pool.Value(), held + multiset(blocks))
      ensures SameEntries(old(pool.Value()).index, pool.Value().index)
    {
      var i := 0;
      assert held + multiset(blocks[..0]) == held;
      while i < |blocks|
        invariant i <= |blocks| && Accounted(|rows|, pool.Value(), held + multiset(blocks[..i]))
        invariant SameEntries(old(pool.Value()).index, pool.Value().index)
      {
        assert blocks[..i + 1] == blocks[..i] + [blocks[i]];
        assert held + multiset(blocks[..i]) + multiset{blocks[i]} == held + multiset(blocks[..i + 1]);
        IncrefKeeps(|rows|, pool.Value(), held + multiset(blocks[..i]), blocks[i]);
        hide BlockOk;
        var ok := pool.prefixCache.Incref(blocks[i]);
        i := i + 1;
      }
      assert blocks[..i] == blocks;
    }

    /** A new request takes over the cached blocks of its prompt, all but the last one if they cover it
        whole, so that at least one token is left to run. */
    method AddRequestSlot(prompt: seq<Token>) returns (k: nat)
      requires Valid() && cfg.asked(prompt)
      modifies this`slots, pool.prefixCache
      ensures Valid() && k == |old(slots)| && |slots| == k + 1 && slots[..k] == old(slots)
      ensures var hit := if pool.caching then Hit(cfg, old(pool.Value()).index, prompt) else 0;
              && slots[k].published == (if hit > 0 then hit else 0)
              && slots[k].prompt == prompt && slots[k].numTokens == Start(cfg, slots[k].published) <= |prompt|
              && slots[k].fed == prompt[..slots[k].numTokens]
              && (prompt != [] ==> slots[k].numTokens < |prompt|)
      ensures |slots[k].blocks| == slots[k].published && (!pool.caching ==> slots[k].published == 0)
      ensures pool.caching ==> TakesOver(cfg, old(pool.Value()).index, prompt, slots[k])
      ensures SameEntries(old(pool.Value()).index, pool.Value().index)
    {
      k := |slots|;
      BlockSizePositive();
      var slot := Match(prompt);
      MatchedIsOk(slot, prompt);
      var m := slot.published;
      assert slot.prompt == prompt && slot.numTokens == Start(cfg, m) && slot.fed == prompt[..slot.numTokens];
      if pool.caching { NewSlotTakesOver(cfg, pool.Value().index, prompt, m); }
      hide Valid, NewSlot, SlotOk, FollowsPrompt, Hit, Found, Keys, Start, Chain, TakesOver;
      Adopt(slot);
    }

    lemma BlockSizePositive()
      requires Valid()
      ensures cfg.blockSize >= 1
    {
    }

    lemma MatchedIsOk(slot: Slot, prompt: seq<Token>)
      requires Valid() && cfg.asked(prompt) && slot.published <= |Found(pool.Value().index, Keys(cfg, prompt))|
      requires Start(cfg, slot.published) <= |prompt|
      requires slot == NewSlot(cfg, pool.Value().index, prompt, slot.published)
      ensures SlotOk(cfg, pool.Value().index.digestOf, rows, slot) && FollowsPrompt(slot)
      ensures forall i :: 0 <= i < |slot.blocks| ==> slot.blocks[i] in pool.Value().index.digestOf
    {
      NewSlotOk(cfg, |rows|, pool.Value(), slots, rows, prompt, slot.published);
      NewBlocksKnown(cfg, |rows|, pool.Value(), slots, rows, prompt, slot.published);
    }

    /** A request whose blocks are all cached joins, with one more reference to each of them. */
    method Adopt(slot: Slot)
      requires Valid() && SlotOk(cfg, pool.Value().index.digestOf, rows, slot) && FollowsPrompt(slot)
      requires forall i :: 0 <= i < |slot.blocks| ==> slot.blocks[i] in pool.Value().index.digestOf
      modifies this`slots, pool.prefixCache
      ensures Valid() && slots == old(slots) + [slot]
      ensures SameEntries(old(pool.Value()).index, pool.Value().index)
    {
      ghost var st := pool.Value();
      assert Inv(cfg, |rows|, st, slots, rows);
      IncrefAll(slot.blocks, Held(slots));
      hide Inv, Sound, SlotOk;
      AddStep(cfg, |rows|, st, pool.Value(), slots, rows, slot);
      slots := slots + [slot];
    }

    /** The request that a prompt starts as. */
    method Match(prompt: seq<Token>) returns (slot: Slot)
      requires cfg.blockSize >= 1
      ensures var hit := if pool.caching then Hit(cfg, pool.Value().index, prompt) else 0;
              && slot.published == (if hit > 0 then hit else 0) <= |Found(pool.Value().index, Keys(cfg, prompt))|
              && Start(cfg, slot.published) <= |prompt| && (prompt != [] ==> Start(cfg, slot.published) < |prompt|)
              && slot == NewSlot(cfg, pool.Value().index, prompt, slot.published)
    {
      hide Start, Keys, Found, Chain, Hit;
      MatchFacts(cfg, pool.Value().index, prompt);
      var keys := ComputeBlockHashes(prompt);
      var matched := [];
      if pool.caching {
        matched := pool.prefixCache.Lookup(keys);
      }
      var hit: int := |matched|;
      if Start(cfg, |matched|) >= |prompt| {
        hit := |matched| - 1;
      }
      var m: nat := if hit > 0 then hit else 0;
      var parent := None;
      if m > 0 {
        parent := Some(keys[m - 1].digest);
      }
      slot := Slot(matched[..m], Start(cfg, m), prompt, m, parent, prompt[..Start(cfg, m)]);
    }

    /** Cuts every request back to the length that it had before the step that failed. */
    method RollBack(snapshot: seq<nat>)
      requires Valid() && |snapshot| == |slots|
      requires forall k :: 0 <= k < |slots| ==>
          Start(cfg, slots[k].published) <= |slots[k].fed| == snapshot[k] <= slots[k].numTokens
      modifies this`slots, pool, pool.prefixCache
      ensures Valid() && |slots| == |old(slots)|
      ensures forall k :: 0 <= k < |slots| ==> RolledBack(cfg, old(slots)[k], slots[k], snapshot[k])
    {
      hide Valid, Start, RolledBack;
      ghost var before := slots;
      var k := 0;
      while k < |slots|
        invariant k <= |slots| == |before| && Valid()
        invariant forall l :: 0 <= l < k ==> RolledBack(cfg, before[l], slots[l], snapshot[l])
        invariant forall l :: k <= l < |slots| ==> slots[l] == before[l]
      {
        RollBackOne(k, snapshot[k]);
        k := k + 1;
      }
    }

    method RollBackOne(k: nat, length: nat)
      requires Valid() && k < |slots|
      requires Start(cfg, slots[k].published) <= |slots[k].fed| == length <= slots[k].numTokens
      modifies this`slots, pool, pool.prefixCache
      ensures Valid() && |slots| == |old(slots)| && slots == old(slots)[k := slots[k]]
      ensures RolledBack(cfg, old(slots)[k], slots[k], length)
    {
      assert cfg.blockSize >= 1;
      hide Inv, Sound, Start;
      var ok := TruncateTo(k, length);
    }

    /** A step of the engine. Out of memory, it leaves every request with the sequence, the length and
        the published blocks that it had, so that the same step can be tried again. */
    method StepOrRollBack(news: seq<seq<Token>>) returns (outcome: Outcome)
      requires Valid() && Settled()
      requires |news| == |slots| ==> forall k :: 0 <= k < |slots| ==>
          FollowsPrompt(slots[k].(fed := slots[k].fed + news[k]))
      modifies this, pool, pool.prefixCache
      ensures Valid() && Settled() && |slots| == |old(slots)|
      ensures outcome == Refused <==> |news| != |old(slots)|
      ensures outcome == Appended ==> forall k :: 0 <= k < |slots| ==>
                slots[k].fed == old(slots)[k].fed + news[k] && slots[k].prompt == old(slots)[k].prompt
      ensures outcome != Appended ==> forall k :: 0 <= k < |slots| ==> Restored(cfg, old(slots)[k], slots[k])
    {
      ghost var before := slots;
      var snapshot := seq(|slots|, k requires 0 <= k < |slots| reads this => slots[k].numTokens);
      TablesFit();
      hide Inv, Sound, Start, RolledBack, Restored;
      outcome := AppendKvPacked(news);
      if outcome == OutOfMemory {
        RollBack(snapshot);
        forall k | 0 <= k < |slots| ensures Restored(cfg, before[k], slots[k]) {
          RolledBackIsRestored(cfg, before[k], slots[k]);
        }
      } else if outcome == Refused {
        forall k | 0 <= k < |slots| ensures Restored(cfg, before[k], slots[k]) {
          UnchangedIsRestored(cfg, before[k]);
        }
      }
    }

    lemma TablesFit()
      requires Valid()
      ensures forall k :: 0 <= k < |slots| ==> Fits(cfg, slots[k])
    {
      forall k | 0 <= k < |slots| ensures Fits(cfg, slots[k]) {
        assert SlotOk(cfg, pool.Value().index.digestOf, rows, slots[k]);
        CeilDivCovers(cfg, slots[k].numTokens, |slots[k].blocks|);
      }
    }
  }

  /** Published blocks are written, and the table covers the request. */
  ghost predicate Fits(cfg: Config, slot: Slot)
  {
    cfg.blockSize >= 1 && Start(cfg, slot.published) <= |slot.fed|
      && CeilDiv(slot.numTokens, cfg.blockSize) <= |slot.blocks|
  }

  lemma UnchangedIsRestored(cfg: Config, a: Slot)
    requires Fits(cfg, a)
    ensures Restored(cfg, a, a)
  {
  }

  lemma RolledBackIsRestored(cfg: Config, a: Slot, c: Slot)
    requires Fits(cfg, a) && exists b :: Grown(a, b) && RolledBack(cfg, b, c, a.numTokens)
    ensures Restored(cfg, a, c)
  {
    var b :| Grown(a, b) && RolledBack(cfg, b, c, a.numTokens);
    var m := CeilDiv(a.numTokens, cfg.blockSize);
    hide CeilDiv;
    assert a.blocks[..m] == b.blocks[..m] && c.blocks[..m] == b.blocks[..m];
  }

  /** `b` is `a` without what it claimed after `length`. */
  ghost predicate RolledBack(cfg: Config, a: Slot, b: Slot, length: nat)
  {
    && b == a.(blocks := b.blocks, numTokens := length)
    && cfg.blockSize >= 1 && CeilDiv(length, cfg.blockSize) <= |b.blocks| && b.blocks <= a.blocks
  }

  /** The same request with the same rows; it may have kept more spare blocks, or given some up. */
  ghost predicate Restored(cfg: Config, a: Slot, b: Slot)
  {
    && b == a.(blocks := b.blocks)
    && cfg.blockSize >= 1
    && var c := CeilDiv(a.numTokens, cfg.blockSize);
    c <= |a.blocks| && c <= |b.blocks| && b.blocks[..c] == a.blocks[..c]
  }

  lemma NewBlocksKnown(cfg: Config, n: nat, st: Store, slots: seq<Slot>, rows: seq<seq<Row>>, prompt: seq<Token>,
                       m: nat)
    requires cfg.asked(prompt)
    requires cfg.blockSize >= 1 && Inv(cfg, n, st, slots, rows) && m <= |Found(st.index, Keys(cfg, prompt))|
    requires Start(cfg, m) <= |prompt|
    ensures var slot := NewSlot(cfg, st.index, prompt, m);
            FollowsPrompt(slot) && forall i :: 0 <= i < |slot.blocks| ==> slot.blocks[i] in st.index.digestOf
  {
    var slot := NewSlot(cfg, st.index, prompt, m);
    forall i: nat | i < |slot.blocks| ensures slot.blocks[i] in st.index.digestOf {
      NewBlockOk(cfg, n, st, slots, rows, prompt, m, i, 0);
    }
  }

  /** The request has the cached blocks of the longest run of known leading blocks of its prompt, less the
      last one if that would leave no token to run. */
  ghost predicate TakesOver(cfg: Config, x: Index, prompt: seq<Token>, slot: Slot)
    requires cfg.blockSize >= 1
  {
    exists found: seq<nat> ::
      && LongestKnown(x, Keys(cfg, prompt), found) && slot.blocks <= found && |slot.blocks| == slot.published
      && TakenOver(cfg, prompt, |found|, slot.published)
  }

  /** How many of `found` blocks a prompt takes over. */
  ghost predicate TakenOver(cfg: Config, prompt: seq<Token>, found: nat, m: nat)
  {
    m == if found > 0 && found * cfg.blockSize >= |prompt| then found - 1 else found
  }

  lemma NewSlotTakesOver(cfg: Config, x: Index, prompt: seq<Token>, m: nat)
    requires cfg.blockSize >= 1 && m <= |Found(x, Keys(cfg, prompt))| && Start(cfg, m) <= |prompt|
    requires m == if Hit(cfg, x, prompt) > 0 then Hit(cfg, x, prompt) else 0
    ensures TakesOver(cfg, x, prompt, NewSlot(cfg, x, prompt, m))
  {
    var found := Found(x, Keys(cfg, prompt));
    FoundIsLongest(x, Keys(cfg, prompt), []);
    HitIs(cfg, x, prompt);
    hide Keys, Found, Start, Chain, Hit;
    assert NewSlot(cfg, x, prompt, m).blocks == found[..m];
    assert TakenOver(cfg, prompt, |found|, m);
    assert LongestKnown(x, Keys(cfg, prompt), found);
  }

  lemma HitIs(cfg: Config, x: Index, prompt: seq<Token>)
    requires cfg.blockSize >= 1
    ensures var found := |Found(x, Keys(cfg, prompt))|;
            var hit := Hit(cfg, x, prompt);
            TakenOver(cfg, prompt, found, if hit > 0 then hit else 0)
  {
    var found := |Found(x, Keys(cfg, prompt))|;
    StartIs(cfg, found);
    hide Keys, Found, Start;
  }

  /** Prefixes are reused: whoever comes with the prompt blocks that a request has published takes them over, for as
      long as the cache keeps them, also when that request has left. Only where the prompt ends with them is the
      last one run again. */
  lemma PublishedIsTakenOver(cfg: Config, n: nat, st: Store, slots: seq<Slot>, rows: seq<seq<Row>>, k: nat, x: Index,
                             prompt: seq<Token>, slot: Slot)
    requires Sound(cfg) && Inv(cfg, n, st, slots, rows) && k < |slots| && cfg.asked(prompt)
    requires SameEntries(st.index, x) && TakesOver(cfg, x, prompt, slot)
    requires var e := slots[k].published * cfg.blockSize;
             e <= |prompt| && e <= |slots[k].prompt| && prompt[..e] == slots[k].prompt[..e]
    ensures slot.published >= slots[k].published
         || (slot.published == slots[k].published - 1 && |prompt| == slots[k].published * cfg.blockSize)
  {
    var m, keys := slots[k].published, Keys(cfg, prompt);
    assert Start(cfg, m) == m * cfg.blockSize by { StartIs(cfg, m); }
    var found :| LongestKnown(x, keys, found) && TakenOver(cfg, prompt, |found|, slot.published);
    hide Keys, TakesOver, Sound, Inv, Start, TakenOver, LongestKnown;
    if |found| < m {
      PublishedIsKnown(cfg, n, st, slots, rows, k, prompt, |found|);
      StillKnown(st.index, x, keys, found);
    }
    TakesAtLeast(cfg, prompt, |found|, m, slot.published);
  }

  lemma StillKnown(x: Index, y: Index, keys: seq<Key>, found: seq<nat>)
    requires SameEntries(x, y) && LongestKnown(y, keys, found) && |found| < |keys|
    ensures !Known(x, keys[|found|])
  {
  }

  lemma TakesAtLeast(cfg: Config, prompt: seq<Token>, found: nat, m: nat, taken: nat)
    requires TakenOver(cfg, prompt, found, taken) && found >= m && m * cfg.blockSize <= |prompt|
    ensures taken >= m || (taken == m - 1 && |prompt| == m * cfg.blockSize)
  {
  }

  /** The cache knows the keys of every block that a request has published. */
  lemma PublishedIsKnown(cfg: Config, n: nat, st: Store, slots: seq<Slot>, rows: seq<seq<Row>>, k: nat,
                         prompt: seq<Token>, i: nat)
    requires Sound(cfg) && Inv(cfg, n, st, slots, rows) && k < |slots| && cfg.asked(prompt) && i < slots[k].published
    requires var e := Start(cfg, slots[k].published);
             e <= |prompt| && e <= |slots[k].prompt| && prompt[..e] == slots[k].prompt[..e]
    ensures i < |Keys(cfg, prompt)| && Known(st.index, Keys(cfg, prompt)[i])
  {
    hide BlockOk, SlotOk, BlockHolds;
    var slot, x := slots[k], st.index;
    PublishedFits(cfg, n, st, slots, rows, k, prompt, i);
    PublishedAt(cfg, n, st, slots, rows, k, i);
    KeyAt(cfg, prompt, i);
    assert prompt[..Start(cfg, i + 1)] == prompt[..Start(cfg, slot.published)][..Start(cfg, i + 1)];
    assert slot.prompt[..Start(cfg, i + 1)] == slot.prompt[..Start(cfg, slot.published)][..Start(cfg, i + 1)];
    ChainOfPrefix(cfg, prompt, i + 1, slot.prompt);
    var h := x.digestOf[slot.blocks[i]];
    assert h in x.entries;
    assert EntryOk(cfg, rows, h, x.entries[h]);
    hide Keys, Chain, Start, Inv, Sound;
    assert Stands(cfg, h, prompt, i);
  }

  lemma PublishedFits(cfg: Config, n: nat, st: Store, slots: seq<Slot>, rows: seq<seq<Row>>, k: nat,
                      prompt: seq<Token>, i: nat)
    requires cfg.blockSize >= 1 && Inv(cfg, n, st, slots, rows) && k < |slots| && i < slots[k].published
    requires Start(cfg, slots[k].published) <= |prompt|
    ensures i < |slots[k].blocks| && i < |prompt| / cfg.blockSize && Start(cfg, i + 1) <= Start(cfg, slots[k].published)
  {
    var m := slots[k].published;
    assert SlotOk(cfg, st.index.digestOf, rows, slots[k]);
    hide Chain, TableOk, RowOk, EntriesOk, Accounted;
    StartMonotone(cfg, i + 1, m);
    PositionSplits(cfg, |prompt|);
    if |slots[k].blocks| < m { StartOrder(cfg, |slots[k].blocks|, m); }
    if |prompt| / cfg.blockSize < m { StartOrder(cfg, |prompt| / cfg.blockSize, m); }
  }

  /** What matching a prompt relies on, with the arithmetic left out. */
  lemma MatchFacts(cfg: Config, x: Index, prompt: seq<Token>)
    requires cfg.blockSize >= 1
    ensures var found := |Found(x, Keys(cfg, prompt))|;
            && found <= |Keys(cfg, prompt)| && Start(cfg, found) <= |prompt|
            && Hit(cfg, x, prompt) == (if Start(cfg, found) >= |prompt| then found - 1 else found)
    ensures Hit(cfg, x, prompt) > 0 ==> Start(cfg, Hit(cfg, x, prompt)) < |prompt|
    ensures Start(cfg, 0) == 0 && Chain(cfg, prompt, 0) == None
    ensures forall m :: 0 < m <= |Keys(cfg, prompt)| ==>
      Start(cfg, m) <= |prompt| && Chain(cfg, prompt, m) == Some(Keys(cfg, prompt)[m - 1].digest)
  {
    FoundWithin(x, Keys(cfg, prompt));
    HitLeavesATokenToRun(cfg, x, prompt);
    hide Start, Chain, Found, Hit;
    forall m | 0 < m <= |Keys(cfg, prompt)|
      ensures Start(cfg, m) <= |prompt| && Chain(cfg, prompt, m) == Some(Keys(cfg, prompt)[m - 1].digest)
    {
      KeyAt(cfg, prompt, m - 1);
    }
  }

  lemma HitLeavesATokenToRun(cfg: Config, x: Index, prompt: seq<Token>)
    requires cfg.blockSize >= 1
    ensures var found := |Found(x, Keys(cfg, prompt))|;
            && Start(cfg, found) <= |prompt|
            && (Hit(cfg, x, prompt) > 0 ==> Start(cfg, Hit(cfg, x, prompt)) < |prompt|)
  {
    var keys := Keys(cfg, prompt);
    FoundWithin(x, keys);
    var found := |Found(x, keys)|;
    StartMonotone(cfg, found, |prompt| / cfg.blockSize);
    PositionSplits(cfg, |prompt|);
    if found > 0 { StartStep(cfg, found - 1); }
  }

  function Most(a: nat, b: nat): (m: nat) { if a < b then b else a }

  /** How many blocks of the prompt are full. */
  function Filled(cfg: Config, slot: Slot): (m: nat)
  {
    if cfg.blockSize == 0 then 0
    else
      var written, whole := slot.numTokens / cfg.blockSize, |slot.prompt| / cfg.blockSize;
      if written < whole then written else whole
  }

  /** The same request, read through other blocks. */
  ghost predicate SameSequence(a: Slot, b: Slot)
  {
    b == a.(blocks := b.blocks, published := b.published, parent := b.parent) && |a.blocks| == |b.blocks|
  }

  lemma SameAsItself(a: Slot)
    ensures SameSequence(a, a)
  {
  }

  lemma StillSame(a: Slot, b: Slot, c: Slot)
    requires SameSequence(a, b) && SameSequence(b, c)
    ensures SameSequence(a, c) && c.fed == b.fed && c.numTokens == b.numTokens
  {
  }

  lemma PrefixFollows(slot: Slot, fed: seq<Token>, m: nat)
    requires FollowsPrompt(slot.(fed := fed)) && m <= |fed|
    ensures FollowsPrompt(slot.(fed := fed[..m]))
  {
    var long := slot.(fed := fed);
    forall p | 0 <= p < m && p < |slot.prompt| ensures fed[..m][p] == slot.prompt[p] {
      assert long.fed[p] == long.prompt[p];
    }
  }

  lemma FilledIsPublishable(cfg: Config, slot: Slot)
    requires FollowsPrompt(slot) && |slot.fed| == slot.numTokens && slot.published < Filled(cfg, slot)
    ensures Publishable(cfg, slot)
  {
    FullBlockFits(cfg, slot.fed, slot.published);
    FullBlockFits(cfg, slot.prompt, slot.published);
  }

  /** A request that has published as many blocks as are full has no further full block. */
  lemma FilledIsAll(cfg: Config, slot: Slot)
    requires cfg.blockSize >= 1 && |slot.fed| == slot.numTokens && slot.published >= Filled(cfg, slot)
    ensures AllPublished(cfg, slot)
  {
    NextMultiple(slot.published, |slot.fed|, cfg.blockSize);
    NextMultiple(slot.published, |slot.prompt|, cfg.blockSize);
  }

  lemma NextMultiple(m: nat, n: nat, size: nat)
    requires size >= 1
    ensures m >= n / size ==> (m + 1) * size > n
  {
    var q := n / size;
    assert n == q * size + n % size;
    if m >= q {
      assert (m + 1) * size == q * size + (m - q) * size + size;
      assert (m - q) * size >= 0;
    }
  }

  /** The next block of the request is not full, or not a whole block of its prompt. */
  ghost predicate AllPublished(cfg: Config, slot: Slot)
  {
    (slot.published + 1) * cfg.blockSize > |slot.fed| || (slot.published + 1) * cfg.blockSize > |slot.prompt|
  }

  /** What is left after cutting to `length`, in so many words: the fewest leading blocks that hold it. */
  lemma CutSpelledOut(cfg: Config, slot: Slot, length: nat)
    requires cfg.blockSize >= 1 && CeilDiv(length, cfg.blockSize) <= |slot.blocks|
    ensures var cut := Cut(cfg, slot, length);
            && cut.blocks <= slot.blocks && length <= |cut.blocks| * cfg.blockSize < length + cfg.blockSize
            && cut.numTokens == length && cut.prompt == slot.prompt && cut.published == slot.published
            && cut.parent == slot.parent && cut.fed == slot.fed[..if length < |slot.fed| then length else |slot.fed|]
  {
    CeilDivBounds(length, cfg.blockSize);
    FewestBlocks(CeilDiv(length, cfg.blockSize), length, cfg.blockSize);
  }

  lemma FewestBlocks(n: nat, length: nat, size: nat)
    requires size >= 1 && n * size >= length && (if length == 0 then n == 0 else n >= 1 && (n - 1) * size < length)
    ensures length <= n * size < length + size
  {
    assert n >= 1 ==> n * size == (n - 1) * size + size;
  }

  lemma NoSpareBlock(cfg: Config, n: nat, length: nat)
    requires cfg.blockSize >= 1 && n <= CeilDiv(length, cfg.blockSize)
    ensures (n - 1) * cfg.blockSize < length || n == 0
  {
    CeilDivCovers(cfg, length, n);
    var c := CeilDiv(length, cfg.blockSize);
    CeilDivBounds(length, cfg.blockSize);
    if 0 < n < c {
      Ordered(n - 1, c - 1, cfg.blockSize);
    }
  }

  lemma AllInUse(n: nat, st: Store, held: multiset<nat>)
    requires Accounted(n, st, held) && Taken(st).None?
    ensures forall b: nat :: b < n ==> held[b] > 0
  {
    AllocateKeeps(n, st, held);
    forall b: nat | b < n ensures held[b] > 0 { BlocksArePartitioned(n, st, held, b); }
  }
}
