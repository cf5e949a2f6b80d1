/** Rewriting one checkpoint shard and the index beside it: which keys are expert weights, what the
    rewritten shard holds, and when the rewritten index still describes the shards. */
module ShardIndex {
  import opened Prelude

  // ---- which keys are routed-expert weights -----------------------------------------------

  const LAYERS := "language_model.model.layers."
  const EXPERTS := ".block_sparse_moe.experts."
  const SUFFIX := "_scale_inv"

  /** The key under which the scales of `key` are stored. */
  function ScaleKey(key: string): (s: string)
  {
    key + SUFFIX
  }

  predicate IsDigit(c: char) { '0' <= c <= '9' }

  function StripPrefix(s: string, p: string): (r: Option<string>)
  {
    if p <= s then Some(s[|p|..]) else None
  }

  /** Drops the leading digits, of which there must be one. */
  function StripDigits(s: string): (r: Option<string>)
    decreases |s|
  {
    if s == [] || !IsDigit(s[0]) then None
    else if |s| > 1 && IsDigit(s[1]) then StripDigits(s[1..])
    else Some(s[1..])
  }

  /** The end of the pattern; like the regular expression's end anchor it lets one newline pass. */
  predicate IsTail(s: string)
  {
    s == ".w1.weight" || s == ".w2.weight" || s == ".w3.weight"
    || s == ".w1.weight\n" || s == ".w2.weight\n" || s == ".w3.weight\n"
  }

  /** The match, from left to right. */
  predicate IsExpert(key: string)
  {
    var a := StripPrefix(key, LAYERS);
    a.Some? &&
    var b := StripDigits(a.value);
    b.Some? &&
    var c := StripPrefix(b.value, EXPERTS);
    c.Some? &&
    var d := StripDigits(c.value);
    d.Some? && IsTail(d.value)
  }

  ghost predicate Digits(s: string)
  {
    s != [] && forall i :: 0 <= i < |s| ==> IsDigit(s[i])
  }

  /** `key` is the pattern with the digits `l` and `e` and one of the three weights `w` filled in, with or
      without a newline behind it. */
  ghost predicate Fills(key: string, l: string, e: string, w: char, end: string)
  {
    && l != [] && (forall i :: 0 <= i < |l| ==> '0' <= l[i] <= '9')
    && e != [] && (forall i :: 0 <= i < |e| ==> '0' <= e[i] <= '9')
    && (w == '1' || w == '2' || w == '3') && (end == "" || end == "\n")
    && key == "language_model.model.layers." + l + ".block_sparse_moe.experts." + e + ".w" + [w] + ".weight" + end
  }

  lemma {:induction false} StripDigitsComplete(d: string, rest: string)
    requires Digits(d) && (rest == [] || !IsDigit(rest[0]))
    ensures StripDigits(d + rest) == Some(rest)
    decreases |d|
  {
    if |d| > 1 {
      assert (d + rest)[1..] == d[1..] + rest;
      StripDigitsComplete(d[1..], rest);
    } else {
      assert (d + rest)[1..] == rest;
    }
  }

  lemma {:induction false} StripDigitsSound(s: string) returns (d: string)
    requires StripDigits(s).Some?
    ensures Digits(d) && s == d + StripDigits(s).value
    decreases |s|
  {
    if |s| > 1 && IsDigit(s[1]) {
      var e := StripDigitsSound(s[1..]);
      d := [s[0]] + e;
      assert s == [s[0]] + s[1..];
    } else {
      d := [s[0]];
    }
  }

  lemma TailOfWeight(w: char, end: string)
    requires (w == '1' || w == '2' || w == '3') && (end == "" || end == "\n")
    ensures IsTail(".w" + [w] + ".weight" + end)
  {
  }

  lemma WeightOfTail(tail: string)
    requires IsTail(tail)
    ensures |tail| >= 10 && (tail[2] == '1' || tail[2] == '2' || tail[2] == '3')
    ensures (tail[10..] == "" || tail[10..] == "\n") && tail == ".w" + [tail[2]] + ".weight" + tail[10..]
  {
  }

  lemma Regrouped(a: string, l: string, b: string, e: string, c: string, w: string, d: string, end: string)
    ensures a + (l + (b + (e + (c + w + d + end)))) == a + l + b + e + c + w + d + end
  {
  }

  lemma PatternOfMatch(key: string) returns (l: string, e: string, w: char, end: string)
    requires IsExpert(key)
    ensures Fills(key, l, e, w, end)
  {
    var a := key[|LAYERS|..];
    l := StripDigitsSound(a);
    var b := StripDigits(a).value;
    var c := b[|EXPERTS|..];
    e := StripDigitsSound(c);
    var tail := StripDigits(c).value;
    WeightOfTail(tail);
    hide IsTail, StripDigits;
    w, end := tail[2], tail[10..];
    assert key == LAYERS + a && b == EXPERTS + c;
    Regrouped("language_model.model.layers.", l, ".block_sparse_moe.experts.", e, ".w", [w], ".weight", end);
  }

  lemma MatchOfPattern(key: string, l: string, e: string, w: char, end: string)
    requires Fills(key, l, e, w, end)
    ensures IsExpert(key)
  {
    var tail := ".w" + [w] + ".weight" + end;
    Regrouped("language_model.model.layers.", l, ".block_sparse_moe.experts.", e, ".w", [w], ".weight", end);
    TailOfWeight(w, end);
    assert tail[0] == '.';
    hide IsTail;
    var b := EXPERTS + (e + tail);
    assert key[|LAYERS|..] == l + b && b[|EXPERTS|..] == e + tail;
    StripDigitsComplete(l, b);
    StripDigitsComplete(e, tail);
  }

  /** The matcher accepts exactly the keys that fill the pattern. */
  lemma MatchesPattern(key: string)
    ensures IsExpert(key) <==> exists l, e, w, end :: Fills(key, l, e, w, end)
  {
    hide IsExpert, Fills;
    if IsExpert(key) {
      var l, e, w, end := PatternOfMatch(key);
    }
    forall l, e, w, end | Fills(key, l, e, w, end) ensures IsExpert(key) {
      MatchOfPattern(key, l, e, w, end);
    }
  }

  lemma LastOfExpert(key: string)
    requires IsExpert(key)
    ensures key != [] && (key[|key| - 1] == 't' || key[|key| - 1] == '\n')
  {
    hide IsExpert;
    var l, e, w, end := PatternOfMatch(key);
    assert end == "" ==> key[|key| - 1] == ".weight"[6];
  }

  /** A generated scale key is never itself an expert weight. */
  lemma ScaleKeyIsPlain(key: string)
    ensures !IsExpert(ScaleKey(key))
  {
    hide IsExpert;
    var s := ScaleKey(key);
    assert s[|s| - 1] == 'v';
    if IsExpert(s) { LastOfExpert(s); }
  }

  lemma ScaleKeysDistinct(a: string, b: string)
    requires ScaleKey(a) == ScaleKey(b)
    ensures a == b
  {
    assert a == ScaleKey(a)[..|ScaleKey(a)| - |SUFFIX|];
    assert b == ScaleKey(b)[..|ScaleKey(b)| - |SUFFIX|];
  }

  /** The key of the scales is the key of the weight and a suffix. */
  lemma ScaleKeyIs(key: string)
    ensures ScaleKey(key) == key + "_scale_inv"
  {
  }

  // ---- one shard --------------------------------------------------------------------------

  /** A source tensor, or one of the two parts that quantising it yields. */
  datatype Tensor = Raw(id: int) | Weights(of: Tensor) | Scales(of: Tensor)

  ghost predicate Enumerates(keys: seq<string>, all: set<string>)
  {
    && (forall i :: 0 <= i < |keys| ==> keys[i] in all)
    && (forall k :: k in all ==> k in keys)
    && forall i, j :: 0 <= i < j < |keys| ==> keys[i] != keys[j]
  }

  /** The keys of the rewritten shard. */
  ghost function TransformedKeys(keys: set<string>): (all: set<string>)
  {
    keys + set k | k in keys && IsExpert(k) :: ScaleKey(k)
  }

  ghost function Experts(keys: seq<string>): (n: nat)
  {
    if keys == [] then 0 else Experts(keys[..|keys| - 1]) + if IsExpert(keys[|keys| - 1]) then 1 else 0
  }

  /** `key` is in the source and also generated from another source key of the same shard. */
  ghost predicate Clashes(shard: map<string, Tensor>, key: string)
  {
    key in shard && exists k :: k in shard && IsExpert(k) && key == ScaleKey(k)
  }

  /** What every key of the rewritten shard holds, as far as the order of the file has no say: that is
      everything but a source key that is also a generated one. */
  ghost predicate IsTransform(shard: map<string, Tensor>, out: map<string, Tensor>)
  {
    && out.Keys == TransformedKeys(shard.Keys)
    && (forall k :: k in shard && IsExpert(k) ==> out[k] == Weights(shard[k]))
    && (forall k :: k in shard && IsExpert(k) && !Clashes(shard, ScaleKey(k)) ==> out[ScaleKey(k)] == Scales(shard[k]))
    && (forall k :: k in shard && !IsExpert(k) && !Clashes(shard, k) ==> out[k] == shard[k])
  }

  /** A source key that is also a generated one holds whichever the file lists last: its own tensor, or
      the scales generated for the weight that it is named after. */
  ghost predicate LastListedWins(shard: map<string, Tensor>, keys: seq<string>, out: map<string, Tensor>)
    requires forall k :: k in keys ==> k in shard && k in out
  {
    forall i, j :: 0 <= i < |keys| && 0 <= j < |keys| && IsExpert(keys[i]) && keys[j] == ScaleKey(keys[i]) ==>
      out[keys[j]] == if j < i then Scales(shard[keys[i]]) else shard[keys[j]]
  }

  lemma StillLastListed(shard: map<string, Tensor>, done: seq<string>, out: map<string, Tensor>, key: string)
    requires PartlyTransformed(shard, done, out) && LastListedWins(shard, done, out) && key in shard && key !in done
    ensures forall k :: k in done + [key] ==> k in shard && k in Step(shard, out, key)
    ensures LastListedWins(shard, done + [key], Step(shard, out, key))
  {
    hide IsExpert, ScaleKey;
    forall k ensures !IsExpert(ScaleKey(k)) { ScaleKeyIsPlain(k); }
    forall k | ScaleKey(k) == ScaleKey(key) ensures k == key { ScaleKeysDistinct(k, key); }
  }

  /** The rewritten shard after the keys seen so far. */
  ghost predicate PartlyTransformed(shard: map<string, Tensor>, done: seq<string>, out: map<string, Tensor>)
  {
    && (forall k :: k in done ==> k in shard)
    && (forall k :: k in out ==> k in done || exists d :: d in done && IsExpert(d) && k == ScaleKey(d))
    && (forall k :: k in done ==> k in out)
    && (forall k :: k in done && IsExpert(k) ==> out[k] == Weights(shard[k]))
    && (forall k :: k in done && IsExpert(k) ==> ScaleKey(k) in out)
    && (forall k :: k in done && IsExpert(k) && !Clashes(shard, ScaleKey(k)) ==> out[ScaleKey(k)] == Scales(shard[k]))
    && (forall k :: k in done && !IsExpert(k) && !Clashes(shard, k) ==> out[k] == shard[k])
  }

  /** What one key adds. */
  function Step(shard: map<string, Tensor>, out: map<string, Tensor>, key: string): (next: map<string, Tensor>)
    requires key in shard
  {
    if IsExpert(key) then out[key := Weights(shard[key])][ScaleKey(key) := Scales(shard[key])]
      else out[key := shard[key]]
  }

  lemma TransformStep(shard: map<string, Tensor>, done: seq<string>, out: map<string, Tensor>, key: string)
    requires PartlyTransformed(shard, done, out) && key in shard && key !in done
    ensures PartlyTransformed(shard, done + [key], Step(shard, out, key))
  {
    hide IsExpert, ScaleKey;
    ScaleKeyIsPlain(key);
    forall k ensures !IsExpert(ScaleKey(k)) { ScaleKeyIsPlain(k); }
    forall k | ScaleKey(k) == ScaleKey(key) ensures k == key { ScaleKeysDistinct(k, key); }
  }

  lemma NothingTransformed(shard: map<string, Tensor>)
    ensures PartlyTransformed(shard, [], map[]) && LastListedWins(shard, [], map[])
  {
  }

  lemma TransformDone(shard: map<string, Tensor>, keys: seq<string>, out: map<string, Tensor>)
    requires Enumerates(keys, shard.Keys) && PartlyTransformed(shard, keys, out)
    ensures IsTransform(shard, out)
  {
    hide IsExpert, Clashes, ScaleKey;
  }

  /** Stores one tensor: quantised with its scales beside it, or as it is. */
  method StoreTensor(ghost shard: map<string, Tensor>, key: string, tensor: Tensor, out: map<string, Tensor>)
    returns (next: map<string, Tensor>, quantized: nat)
    requires key in shard && shard[key] == tensor
    ensures next == Step(shard, out, key) && quantized == if IsExpert(key) then 1 else 0
  {
    next, quantized := out, 0;
    if IsExpert(key) {
      next := next[key := Weights(tensor)];
      next := next[ScaleKey(key) := Scales(tensor)];
      quantized := 1;
    } else {
      next := next[key := tensor];
    }
  }

  /** Streams the tensors of one shard, whatever order the file lists them in. */
  method TransformShard(shard: map<string, Tensor>, keys: seq<string>)
    returns (out: map<string, Tensor>, tensors: nat, quantized: nat)
    requires Enumerates(keys, shard.Keys)
    ensures IsTransform(shard, out) && LastListedWins(shard, keys, out)
    ensures tensors == |shard| && quantized == |set k | k in shard && IsExpert(k)|
  {
    hide PartlyTransformed, IsExpert, IsTransform, Clashes, ScaleKey, Step, LastListedWins;
    out, tensors, quantized := map[], 0, 0;
    NothingTransformed(shard);
    assert keys[..0] == [];
    for i := 0 to |keys|
      invariant PartlyTransformed(shard, keys[..i], out)
      invariant (forall k :: k in keys[..i] ==> k in shard && k in out) && LastListedWins(shard, keys[..i], out)
      invariant tensors == i && quantized == Experts(keys[..i])
    {
      var key := keys[i];
      TransformStep(shard, keys[..i], out, key);
      StillLastListed(shard, keys[..i], out, key);
      assert keys[..i + 1] == keys[..i] + [key];
      var more;
      out, more := StoreTensor(shard, key, shard[key], out);
      tensors, quantized := tensors + 1, quantized + more;
    }
    assert keys[..|keys|] == keys;
    TransformDone(shard, keys, out);
    CountKeys(keys, shard.Keys);
    CountExperts(keys, shard.Keys);
    assert (set k | k in shard && IsExpert(k)) == set k | k in shard.Keys && IsExpert(k);
  }

  lemma {:induction false} CountExperts(keys: seq<string>, all: set<string>)
    requires Enumerates(keys, all)
    ensures Experts(keys) == |set k | k in all && IsExpert(k)|
    decreases |keys|
  {
    hide IsExpert;
    var experts := set k | k in all && IsExpert(k);
    if keys == [] {
      assert experts == {};
    } else {
      var init, last := keys[..|keys| - 1], keys[|keys| - 1];
      assert keys == init + [last];
      CountExperts(init, all - {last});
      ExpertsWithout(all, last);
    }
  }

  lemma ExpertsWithout(all: set<string>, last: string)
    requires last in all
    ensures |set k | k in all && IsExpert(k)|
         == |set k | k in all - {last} && IsExpert(k)| + if IsExpert(last) then 1 else 0
  {
    hide IsExpert;
    var experts, fewer := set k | k in all && IsExpert(k), set k | k in all - {last} && IsExpert(k);
    assert experts == fewer + if IsExpert(last) then {last} else {};
  }

  /** The rewritten shard, key by key: the source's keys, the expert weights quantised, and one more key
      beside each of them. */
  lemma TransformSpelledOut(shard: map<string, Tensor>, out: map<string, Tensor>, key: string)
    requires IsTransform(shard, out)
    ensures key in out <==> key in shard || exists w :: w in shard && IsExpert(w) && key == w + "_scale_inv"
    ensures key in shard && IsExpert(key) ==>
              && out[key] == Weights(shard[key]) && (key + "_scale_inv") in out
              && ((key + "_scale_inv") !in shard ==> out[key + "_scale_inv"] == Scales(shard[key]))
    ensures key in shard && !IsExpert(key) && (forall w :: w in shard && IsExpert(w) ==> key != w + "_scale_inv") ==>
              out[key] == shard[key]
  {
    forall w ensures ScaleKey(w) == w + "_scale_inv" { ScaleKeyIs(w); }
    hide IsExpert, ScaleKey;
  }

  lemma {:induction false} CountKeys(keys: seq<string>, all: set<string>)
    requires Enumerates(keys, all)
    ensures |keys| == |all|
    decreases |keys|
  {
    if keys == [] {
      assert all == {};
    } else {
      var init, last := keys[..|keys| - 1], keys[|keys| - 1];
      assert keys == init + [last];
      CountKeys(init, all - {last});
    }
  }

  // ---- the index --------------------------------------------------------------------------

  type WeightMap = map<string, string>

  /** Every expert key's scale key, mapped to the shard of its weight. */
  function ScaleEntries(weightMap: WeightMap): (m: WeightMap)
  {
    forall a, b | a in weightMap && b in weightMap && ScaleKey(a) == ScaleKey(b)
      ensures a == b
    {
      ScaleKeysDistinct(a, b);
    }
    map k | k in weightMap && IsExpert(k) :: ScaleKey(k) := weightMap[k]
  }

  function WithScales(weightMap: WeightMap): (m: WeightMap)
  {
    weightMap + ScaleEntries(weightMap)
  }

  /** The entries of `weightMap` for the keys seen so far. */
  function Restricted(weightMap: WeightMap, keys: seq<string>): (m: WeightMap)
  {
    map k | k in keys && k in weightMap :: weightMap[k]
  }

  lemma RestrictedSnoc(weightMap: WeightMap, keys: seq<string>, i: nat)
    requires i < |keys| && Enumerates(keys, weightMap.Keys)
    ensures keys[i] !in Restricted(weightMap, keys[..i])
    ensures Restricted(weightMap, keys[..i + 1]) == Restricted(weightMap, keys[..i])[keys[i] := weightMap[keys[i]]]
  {
  }

  lemma RestrictedEnds(weightMap: WeightMap, keys: seq<string>)
    requires Enumerates(keys, weightMap.Keys)
    ensures weightMap + ScaleEntries(Restricted(weightMap, [])) == weightMap && Restricted(weightMap, keys) == weightMap
  {
    hide IsExpert, ScaleKey;
  }

  /** The rewritten index, key by key. */
  lemma IndexSpelledOut(weightMap: WeightMap, key: string)
    ensures var m := WithScales(weightMap);
            && (key in m <==> key in weightMap || exists w :: w in weightMap && IsExpert(w) && key == w + "_scale_inv")
            && (forall w :: w in weightMap && IsExpert(w) && key == w + "_scale_inv" ==> m[key] == weightMap[w])
            && (key in weightMap && (forall w :: w in weightMap && IsExpert(w) ==> key != w + "_scale_inv") ==>
                  m[key] == weightMap[key])
  {
    forall a, b | ScaleKey(a) == ScaleKey(b) ensures a == b { ScaleKeysDistinct(a, b); }
    forall w ensures ScaleKey(w) == w + "_scale_inv" { ScaleKeyIs(w); }
    hide IsExpert, ScaleKey;
  }

  /** Copies the map and adds the scale entries one by one, whatever order the keys come in. */
  method IndexWithScales(weightMap: WeightMap, keys: seq<string>) returns (m: WeightMap)
    requires Enumerates(keys, weightMap.Keys)
    ensures m == WithScales(weightMap)
  {
    hide Restricted, ScaleEntries, IsExpert, ScaleKey;
    m := weightMap;
    RestrictedEnds(weightMap, keys);
    assert keys[..0] == [];
    for i := 0 to |keys|
      invariant m == weightMap + ScaleEntries(Restricted(weightMap, keys[..i]))
    {
      var key := keys[i];
      RestrictedSnoc(weightMap, keys, i);
      ScaleEntriesSnoc(Restricted(weightMap, keys[..i]), key, weightMap[key]);
      if IsExpert(key) {
        m := m[ScaleKey(key) := weightMap[key]];
      }
    }
    assert keys[..|keys|] == keys;
  }

  lemma ScaleEntriesSnoc(done: WeightMap, key: string, shard: string)
    requires key !in done
    ensures ScaleEntries(done[key := shard]) == if IsExpert(key) then ScaleEntries(done)[ScaleKey(key) := shard]
        else ScaleEntries(done)
  {
    hide IsExpert, ScaleKey;
    forall a, b | ScaleKey(a) == ScaleKey(b) ensures a == b { ScaleKeysDistinct(a, b); }
  }

  /** Rewriting an already rewritten index changes nothing. */
  lemma WithScalesIdempotent(weightMap: WeightMap)
    ensures WithScales(WithScales(weightMap)) == WithScales(weightMap)
  {
    hide IsExpert, ScaleKey;
    var once := WithScales(weightMap);
    forall k ensures !IsExpert(ScaleKey(k)) { ScaleKeyIsPlain(k); }
    forall a, b | ScaleKey(a) == ScaleKey(b) ensures a == b { ScaleKeysDistinct(a, b); }
    forall k | k in once && IsExpert(k) ensures k in weightMap && once[k] == weightMap[k] {
    }
    assert ScaleEntries(once) == ScaleEntries(weightMap);
  }

  ghost predicate MapsTo(weightMap: WeightMap, k: string, s: string)
  {
    k in weightMap && weightMap[k] == s
  }

  ghost predicate Holds(shards: map<string, set<string>>, k: string, s: string)
  {
    s in shards && k in shards[s]
  }

  /** The index maps a key to a shard exactly when that shard contains the key. */
  ghost predicate Describes(weightMap: WeightMap, shards: map<string, set<string>>)
  {
    forall k, s :: MapsTo(weightMap, k, s) <==> Holds(shards, k, s)
  }

  ghost function TransformedShards(shards: map<string, set<string>>): (t: map<string, set<string>>)
  {
    map s | s in shards :: TransformedKeys(shards[s])
  }

  /** A source key that is also a generated one sits in the shard of the weight that generates it. */
  ghost predicate ClashesStayHome(weightMap: WeightMap)
  {
    forall k :: k in weightMap && IsExpert(k) && ScaleKey(k) in weightMap ==> weightMap[ScaleKey(k)] == weightMap[k]
  }

  lemma ScaleEntryValue(weightMap: WeightMap, w: string)
    requires w in weightMap && IsExpert(w)
    ensures MapsTo(ScaleEntries(weightMap), ScaleKey(w), weightMap[w])
    ensures MapsTo(WithScales(weightMap), ScaleKey(w), weightMap[w])
  {
    hide IsExpert, ScaleKey;
    forall a, b | ScaleKey(a) == ScaleKey(b) ensures a == b { ScaleKeysDistinct(a, b); }
  }

  lemma PlainEntryValue(weightMap: WeightMap, k: string)
    requires k in weightMap && ClashesStayHome(weightMap)
    ensures MapsTo(WithScales(weightMap), k, weightMap[k])
  {
    hide IsExpert, ScaleKey;
    if k in ScaleEntries(weightMap) {
      var w :| w in weightMap && IsExpert(w) && k == ScaleKey(w);
      ScaleEntryValue(weightMap, w);
    }
  }

  lemma DescribesForward(weightMap: WeightMap, shards: map<string, set<string>>, k: string, s: string)
    requires Describes(weightMap, shards) && MapsTo(WithScales(weightMap), k, s)
    ensures Holds(TransformedShards(shards), k, s)
  {
    hide IsExpert, ScaleKey;
    if k in ScaleEntries(weightMap) {
      var w :| w in weightMap && IsExpert(w) && k == ScaleKey(w);
      ScaleEntryValue(weightMap, w);
      assert MapsTo(weightMap, w, s);
      assert Holds(shards, w, s);
    } else {
      assert MapsTo(weightMap, k, s);
      assert Holds(shards, k, s);
    }
  }

  lemma DescribesBackward(weightMap: WeightMap, shards: map<string, set<string>>, k: string, s: string)
    requires Describes(weightMap, shards) && ClashesStayHome(weightMap) && Holds(TransformedShards(shards), k, s)
    ensures MapsTo(WithScales(weightMap), k, s)
  {
    hide IsExpert, WithScales, ClashesStayHome, ScaleKey;
    if Holds(shards, k, s) {
      assert MapsTo(weightMap, k, s);
      PlainEntryValue(weightMap, k);
    } else {
      var w :| w in shards[s] && IsExpert(w) && k == ScaleKey(w);
      assert Holds(shards, w, s);
      assert MapsTo(weightMap, w, s);
      ScaleEntryValue(weightMap, w);
    }
  }

  lemma ClashIsHome(weightMap: WeightMap, shards: map<string, set<string>>, k: string)
    requires Describes(weightMap, shards) && Describes(WithScales(weightMap), TransformedShards(shards))
    requires k in weightMap && IsExpert(k) && ScaleKey(k) in weightMap
    ensures weightMap[ScaleKey(k)] == weightMap[k]
  {
    hide IsExpert, WithScales, ScaleKey;
    var home := weightMap[ScaleKey(k)];
    assert MapsTo(weightMap, ScaleKey(k), home);
    assert Holds(shards, ScaleKey(k), home);
    assert Holds(TransformedShards(shards), ScaleKey(k), home);
    assert MapsTo(WithScales(weightMap), ScaleKey(k), home);
    ScaleEntryValue(weightMap, k);
  }

  /** After staging, the rewritten index describes the rewritten shards exactly when every clash
      between a source key and a generated key stays inside one shard. */
  lemma RewrittenIndexDescribes(weightMap: WeightMap, shards: map<string, set<string>>)
    requires Describes(weightMap, shards)
    ensures Describes(WithScales(weightMap), TransformedShards(shards)) <==> ClashesStayHome(weightMap)
  {
    hide IsExpert, WithScales, TransformedShards, MapsTo, Holds, ScaleKey;
    var m, t := WithScales(weightMap), TransformedShards(shards);
    if ClashesStayHome(weightMap) {
      forall k, s ensures MapsTo(m, k, s) <==> Holds(t, k, s) {
        if MapsTo(m, k, s) { DescribesForward(weightMap, shards, k, s); }
        if Holds(t, k, s) { DescribesBackward(weightMap, shards, k, s); }
      }
    }
    if Describes(m, t) {
      forall k | k in weightMap && IsExpert(k) && ScaleKey(k) in weightMap
        ensures weightMap[ScaleKey(k)] == weightMap[k]
      {
        ClashIsHome(weightMap, shards, k);
      }
    }
  }
}
