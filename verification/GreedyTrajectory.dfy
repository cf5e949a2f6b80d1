/** The target model seen from outside: the argmax token after a prefix, the trajectory that
    greedy decoding follows, and the target's own key/value cache. */
module GreedyTrajectory {
  import opened Prelude

  type Token = int
  type Model = seq<Token> -> Token

  /** `n` greedy steps after `prefix`, one token at a time. */
  function Extend(next: Model, prefix: seq<Token>, n: nat): (t: seq<Token>)
    ensures |t| == |prefix| + n && prefix <= t
  {
    if n == 0 then prefix
    else
      var shorter := Extend(next, prefix, n - 1);
      shorter + [next(shorter)]
  }

  /** Every position of `t` after `prefix` holds the argmax of what precedes it. */
  ghost predicate Greedy(next: Model, prefix: seq<Token>, t: seq<Token>)
  {
    prefix <= t && forall i :: |prefix| <= i < |t| ==> t[i] == next(t[..i])
  }

  /** The trajectory is greedy at every position, and no other extension is. */
  lemma {:induction false} GreedyIsTheTrajectory(next: Model, prefix: seq<Token>, t: seq<Token>)
    ensures Greedy(next, prefix, t) <==> |t| >= |prefix| && t == Extend(next, prefix, |t| - |prefix|)
    decreases |t|
  {
    if |t| > |prefix| {
      var u := t[..|t| - 1];
      assert t == u + [t[|u|]];
      assert prefix <= t ==> prefix <= u;
      assert forall i :: |prefix| <= i < |u| ==> u[i] == t[i] && u[..i] == t[..i];
      GreedyIsTheTrajectory(next, prefix, u);
    }
  }

  lemma {:induction false} ExtendExtends(next: Model, prefix: seq<Token>, m: nat, n: nat)
    ensures Extend(next, Extend(next, prefix, m), n) == Extend(next, prefix, m + n)
    decreases n
  {
    if n > 0 {
      ExtendExtends(next, prefix, m, n - 1);
    }
  }

  /** Position by position, two trajectories of one prefix agree. */
  lemma ExtendPrefix(next: Model, prefix: seq<Token>, m: nat, n: nat)
    requires m <= n
    ensures Extend(next, prefix, m) == Extend(next, prefix, n)[..|prefix| + m]
  {
    ExtendExtends(next, prefix, m, n - m);
  }

  predicate IsEos(eos: Option<Token>, token: Token) { eos == Some(token) }

  /** What greedy decoding may emit: at most `room` tokens, and nothing after EOS. */
  function GreedyTokens(next: Model, eos: Option<Token>, prefix: seq<Token>, room: int): (out: seq<Token>)
    decreases room
  {
    if room <= 0 then []
    else
      var t := next(prefix);
      if IsEos(eos, t) then [t] else [t] + GreedyTokens(next, eos, prefix + [t], room - 1)
  }

  /** `out` is what stops the first time it meets EOS or the length limit. */
  ghost predicate StopsAtEosOrLimit(eos: Option<Token>, out: seq<Token>, room: int)
  {
    && (forall i :: 0 <= i < |out| - 1 ==> !IsEos(eos, out[i]))
    && if room <= 0 then out == []
       else 1 <= |out| <= room && (|out| == room || IsEos(eos, out[|out| - 1]))
  }

  lemma {:induction false} GreedyTokensStops(next: Model, eos: Option<Token>, prefix: seq<Token>, room: int)
    ensures StopsAtEosOrLimit(eos, GreedyTokens(next, eos, prefix, room), room)
    decreases room
  {
    if room > 0 && !IsEos(eos, next(prefix)) {
      var rest := GreedyTokens(next, eos, prefix + [next(prefix)], room - 1);
      GreedyTokensStops(next, eos, prefix + [next(prefix)], room - 1);
      assert forall i :: 1 <= i < |rest| + 1 ==> ([next(prefix)] + rest)[i] == rest[i - 1];
    }
  }

  lemma {:induction false} GreedyTokensOnTrajectory(next: Model, eos: Option<Token>, prefix: seq<Token>, room: int)
    ensures var out := GreedyTokens(next, eos, prefix, room); prefix + out == Extend(next, prefix, |out|)
    decreases room
  {
    if room <= 0 {
      assert prefix + [] == prefix;
    } else {
      var t := next(prefix);
      var step := prefix + [t];
      assert Extend(next, prefix, 1) == step by { assert Extend(next, prefix, 0) == prefix; }
      if IsEos(eos, t) {
        assert GreedyTokens(next, eos, prefix, room) == [t];
      } else {
        var rest := GreedyTokens(next, eos, step, room - 1);
        GreedyTokensOnTrajectory(next, eos, step, room - 1);
        ExtendExtends(next, prefix, 1, |rest|);
        assert prefix + ([t] + rest) == step + rest;
      }
    }
  }

  ghost predicate IsGreedyOutput(next: Model, eos: Option<Token>, prefix: seq<Token>, room: int, out: seq<Token>)
  {
    prefix + out == Extend(next, prefix, |out|) && StopsAtEosOrLimit(eos, out, room)
  }

  lemma GreedyOutputIsUnique(next: Model, eos: Option<Token>, prefix: seq<Token>, room: int, a: seq<Token>,
                             b: seq<Token>)
    requires IsGreedyOutput(next, eos, prefix, room, a) && IsGreedyOutput(next, eos, prefix, room, b)
    requires |a| <= |b|
    ensures a == b
  {
    ExtendPrefix(next, prefix, |a|, |b|);
    assert a == b[..|a|] by {
      assert a == (prefix + a)[|prefix|..];
      assert b[..|a|] == (prefix + b)[..|prefix| + |a|][|prefix|..];
    }
  }

  /** GreedyTokens is the trajectory cut at the first EOS or at the limit, and nothing else is. */
  lemma GreedyTokensCharacterised(next: Model, eos: Option<Token>, prefix: seq<Token>, room: int, out: seq<Token>)
    ensures out == GreedyTokens(next, eos, prefix, room) <==> IsGreedyOutput(next, eos, prefix, room, out)
  {
    var g := GreedyTokens(next, eos, prefix, room);
    GreedyTokensOnTrajectory(next, eos, prefix, room);
    GreedyTokensStops(next, eos, prefix, room);
    if IsGreedyOutput(next, eos, prefix, room, out) {
      if |out| <= |g| {
        GreedyOutputIsUnique(next, eos, prefix, room, out, g);
      } else {
        GreedyOutputIsUnique(next, eos, prefix, room, g, out);
      }
    }
  }

  /** Row `i` of one forward pass: the argmax after everything cached and the fed tokens up to `i`. */
  function ArgmaxRows(next: Model, cached: seq<Token>, fed: seq<Token>): (rows: seq<Token>)
    ensures |rows| == |fed|
    ensures forall i :: 0 <= i < |fed| ==> rows[i] == next(cached + fed[..i + 1])
  {
    seq(|fed|, i requires 0 <= i < |fed| => next(cached + fed[..i + 1]))
  }

  /** What the tapped layers hold at one position: a function of every token up to it. `Masked`
      stands for a drafter position that saw no target state. */
  datatype HiddenRow = Tapped(prefix: seq<Token>) | Masked

  /** The tapped rows of one forward pass. */
  function HiddenRows(cached: seq<Token>, fed: seq<Token>): (rows: seq<HiddenRow>)
    ensures |rows| == |fed|
    ensures forall i :: 0 <= i < |fed| ==> rows[i] == Tapped(cached + fed[..i + 1])
  {
    seq(|fed|, i requires 0 <= i < |fed| => Tapped(cached + fed[..i + 1]))
  }

  /** Feeding in two passes taps the same rows as feeding at once. */
  lemma HiddenRowsAppend(cached: seq<Token>, a: seq<Token>, b: seq<Token>)
    ensures HiddenRows(cached, a + b) == HiddenRows(cached, a) + HiddenRows(cached + a, b)
  {
    forall i | 0 <= i < |a| + |b|
      ensures HiddenRows(cached, a + b)[i] == (HiddenRows(cached, a) + HiddenRows(cached + a, b))[i]
    {
      if i < |a| {
        assert (a + b)[..i + 1] == a[..i + 1];
      } else {
        assert cached + (a + b)[..i + 1] == cached + a + b[..i - |a| + 1];
      }
    }
  }

  /** The target's cache, as the tokens whose keys and values it holds. */
  class TargetCache {
    var tokens: seq<Token>

    constructor ()
      ensures tokens == []
    {
      tokens := [];
    }

    /** One forward pass: appends what it is fed and returns one argmax per fed token. The
        caller states the position of the first fed token; the rows mean what they should
        only if that is where the cache ends. */
    method Forward(next: Model, fed: seq<Token>, offset: nat) returns (rows: seq<Token>, hidden: seq<HiddenRow>)
      requires offset == |tokens|
      modifies this
      ensures tokens == old(tokens) + fed
      ensures rows == ArgmaxRows(next, old(tokens), fed) && hidden == HiddenRows(old(tokens), fed)
    {
      rows, hidden := ArgmaxRows(next, tokens, fed), HiddenRows(tokens, fed);
      tokens := tokens + fed;
    }

    /** Keeps the first `length` positions; a longer `length` changes nothing. */
    method Crop(length: nat)
      modifies this
      ensures tokens == if length < |old(tokens)| then old(tokens)[..length] else old(tokens)
    {
      if length < |tokens| {
        tokens := tokens[..length];
      }
    }
  }
}
