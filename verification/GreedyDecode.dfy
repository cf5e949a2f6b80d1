/** Chunked prefill, then one cached forward per token, against decoding without a cache. */
module GreedyDecode {
  import opened GreedyTrajectory
  import opened Prelude

  /** The state of the random generator. Greedy decoding ignores it. */
  type Rng = nat

  /** Turns the logits after a prefix, and the generator, into a token. */
  type Pick = (seq<Token>, Rng) -> (Token, Rng)

  function Argmax(next: Model): (pick: Pick)
  {
    (prefix: seq<Token>, rng: Rng) => (next(prefix), rng)
  }

  /** `n` tokens after `prefix`, each from the whole prefix before it: no cache, no chunks. */
  function Decoded(pick: Pick, prefix: seq<Token>, rng: Rng, n: nat): (out: seq<Token>)
    ensures |out| == n
    decreases n
  {
    if n == 0 then []
    else
      var (token, later) := pick(prefix, rng);
      [token] + Decoded(pick, prefix + [token], later, n - 1)
  }

  function Budget(maxNewTokens: int): (n: nat)
  {
    if maxNewTokens < 1 then 1 else maxNewTokens
  }

  /** Feeds the prompt chunk by chunk. Every pass names the position at which it goes on, and the
      cache takes it only there, so each prompt position is fed once and in order. The row is that
      of the last position of the last pass; without a prompt there is none. */
  method Prefill(next: Model, cache: TargetCache, prompt: seq<Token>, chunk: nat) returns (row: Option<HiddenRow>)
    requires chunk >= 1 && cache.tokens == []
    modifies cache
    ensures cache.tokens == prompt
    ensures row == if prompt == [] then None else Some(Tapped(prompt))
  {
    var done := 0;
    row := None;
    while done < |prompt|
      invariant done <= |prompt| && cache.tokens == prompt[..done]
      invariant row == if done == 0 then None else Some(Tapped(prompt[..done]))
    {
      var n := if chunk < |prompt| - done then chunk else |prompt| - done;
      var fed := prompt[done..done + n];
      var rows, hidden := cache.Forward(next, fed, done);
      assert prompt[..done] + fed == prompt[..done + n];
      assert fed[..n] == fed;
      row := Some(hidden[n - 1]);
      done := done + n;
    }
    assert prompt[..done] == prompt;
  }

  /** The decode of a prompt: an empty one has no logits to start from. */
  method Decode(next: Model, pick: Pick, seed: Rng, cache: TargetCache, prompt: seq<Token>, maxNewTokens: int,
                chunk: nat)
    returns (result: Option<seq<Token>>)
    requires chunk >= 1 && cache.tokens == []
    modifies cache
    ensures result == if prompt == [] then None else Some(Decoded(pick, prompt, seed, Budget(maxNewTokens)))
    ensures result.Some? ==> |result.value| == if maxNewTokens < 1 then 1 else maxNewTokens
    ensures result.Some? ==> exists states :: states != [] && states[0] == seed
                                              && DecodeRun(pick, prompt, result.value, states)
    ensures result.Some? ==> cache.tokens + [result.value[|result.value| - 1]] == prompt + result.value
  {
    var row := Prefill(next, cache, prompt, chunk);
    if row.None? {
      return None;
    }
    var (token, rng) := pick(row.value.prefix, seed);
    var out := [token];
    var cacheLen := |prompt|;
    assert prompt + out == prompt + [token];
    for k := 0 to Budget(maxNewTokens) - 1
      invariant |out| == k + 1 && out[k] == token && cacheLen == |prompt| + k
      invariant cache.tokens == prompt + out[..k]
      invariant out + Decoded(pick, prompt + out, rng, Budget(maxNewTokens) - 1 - k)
          == Decoded(pick, prompt, seed, Budget(maxNewTokens))
    {
      var rows, hidden := cache.Forward(next, [token], cacheLen);
      cacheLen := cacheLen + 1;
      assert prompt + out[..k] + [token] == prompt + out;
      assert [token][..1] == [token];
      var (token', rng') := pick(hidden[0].prefix, rng);
      assert prompt + out + [token'] == prompt + (out + [token']);
      DecodedStep(pick, prompt, out, rng, Budget(maxNewTokens) - 1 - k);
      token, rng := token', rng';
      out := out + [token];
    }
    assert out + [] == out;
    DecodedIsTheRun(pick, prompt, seed, Budget(maxNewTokens), out);
    result := Some(out);
  }

  lemma DecodedStep(pick: Pick, prompt: seq<Token>, out: seq<Token>, rng: Rng, n: nat)
    requires n > 0
    ensures var (token, later) := pick(prompt + out, rng);
            out + Decoded(pick, prompt + out, rng, n)
              == out + [token] + Decoded(pick, prompt + (out + [token]), later, n - 1)
  {
    var (token, later) := pick(prompt + out, rng);
    assert prompt + out + [token] == prompt + (out + [token]);
  }

  // ---- what it means ----------------------------------------------------------------------

  /** Each token is picked from the whole prefix before it and from the state of the generator that the pick
      before it left. */
  ghost predicate DecodeRun(pick: Pick, prefix: seq<Token>, out: seq<Token>, states: seq<Rng>)
  {
    && |states| == |out| + 1
    && forall i :: 0 <= i < |out| ==> pick(prefix + out[..i], states[i]) == (out[i], states[i + 1])
  }

  /** The decoded tokens are those of such a run of picks, and no others are. */
  lemma {:induction false} DecodedIsTheRun(pick: Pick, prefix: seq<Token>, rng: Rng, n: nat, out: seq<Token>)
    ensures out == Decoded(pick, prefix, rng, n) <==>
            |out| == n && exists states :: states != [] && states[0] == rng && DecodeRun(pick, prefix, out, states)
    decreases n
  {
    if n == 0 {
      assert DecodeRun(pick, prefix, [], [rng]);
    } else if |out| == n {
      var (token, later) := pick(prefix, rng);
      var rest := out[1..];
      assert out == [out[0]] + rest;
      DecodedIsTheRun(pick, prefix + [token], later, n - 1, rest);
      if out == Decoded(pick, prefix, rng, n) {
        var states :| states != [] && states[0] == later && DecodeRun(pick, prefix + [token], rest, states);
        RunOfMore(pick, prefix, rng, token, rest, states);
      }
      forall states | states != [] && states[0] == rng && DecodeRun(pick, prefix, out, states)
        ensures out == Decoded(pick, prefix, rng, n)
      {
        RunOfFewer(pick, prefix, out, states);
      }
    }
  }

  lemma RunOfMore(pick: Pick, prefix: seq<Token>, rng: Rng, token: Token, rest: seq<Token>, states: seq<Rng>)
    requires states != [] && pick(prefix, rng) == (token, states[0])
    requires DecodeRun(pick, prefix + [token], rest, states)
    ensures DecodeRun(pick, prefix, [token] + rest, [rng] + states)
  {
    var out := [token] + rest;
    assert prefix + out[..0] == prefix;
    forall i | 0 < i < |out| ensures prefix + out[..i] == prefix + [token] + rest[..i - 1] {
    }
  }

  lemma RunOfFewer(pick: Pick, prefix: seq<Token>, out: seq<Token>, states: seq<Rng>)
    requires out != [] && states != [] && DecodeRun(pick, prefix, out, states)
    ensures pick(prefix, states[0]) == (out[0], states[1])
    ensures DecodeRun(pick, prefix + [out[0]], out[1..], states[1..])
  {
    assert prefix + out[..0] == prefix;
    forall i | 0 <= i < |out| - 1 ensures prefix + [out[0]] + out[1..][..i] == prefix + out[..i + 1] {
    }
  }

  /** A longer budget only adds tokens. */
  lemma {:induction false} DecodedPrefix(pick: Pick, prefix: seq<Token>, rng: Rng, m: nat, n: nat)
    requires m <= n
    ensures Decoded(pick, prefix, rng, m) == Decoded(pick, prefix, rng, n)[..m]
    decreases m
  {
    if m > 0 {
      var (token, later) := pick(prefix, rng);
      DecodedPrefix(pick, prefix + [token], later, m - 1, n - 1);
    }
  }

  /** The greedy case is the target's trajectory, whatever the generator. */
  lemma {:induction false} GreedyIsTrajectory(next: Model, prefix: seq<Token>, rng: Rng, n: nat)
    ensures prefix + Decoded(Argmax(next), prefix, rng, n) == Extend(next, prefix, n)
    decreases n
  {
    if n > 0 {
      var token := next(prefix);
      GreedyIsTrajectory(next, prefix + [token], rng, n - 1);
      assert Extend(next, prefix, 0) == prefix;
      assert Extend(next, prefix, 1) == prefix + [token];
      ExtendExtends(next, prefix, 1, n - 1);
      assert prefix + ([token] + Decoded(Argmax(next), prefix + [token], rng, n - 1))
          == prefix + [token] + Decoded(Argmax(next), prefix + [token], rng, n - 1);
    }
  }

  /** So it is what greedy decoding emits when no token ends it. */
  lemma GreedyNeverStopsEarly(next: Model, prompt: seq<Token>, rng: Rng, maxNewTokens: int)
    ensures var n := if maxNewTokens < 1 then 1 else maxNewTokens;
            Decoded(Argmax(next), prompt, rng, n) == GreedyTokens(next, None, prompt, n)
  {
    var n := Budget(maxNewTokens);
    GreedyIsTrajectory(next, prompt, rng, n);
    GreedyTokensCharacterised(next, None, prompt, n, Decoded(Argmax(next), prompt, rng, n));
  }
}
