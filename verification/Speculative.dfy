/** Draft/verify speculative decoding: what one verified round commits, the multi-round loop of
    the parity script, the batch-1 runner, and the target-alone baseline with its memo table. */
module Speculative {
  import opened GreedyTrajectory
  import opened Prelude

  // ---- one round --------------------------------------------------------------------------

  /** The scan over a block: how many leading draft tokens equal the target's argmax. */
  method CountAccepted(draft: seq<Token>, argmax: seq<Token>) returns (accepted: nat)
    requires |draft| <= |argmax|
    ensures accepted <= |draft| && draft[..accepted] == argmax[..accepted]
    ensures accepted < |draft| ==> draft[accepted] != argmax[accepted]
  {
    accepted := 0;
    for i := 0 to |draft|
      invariant accepted == i && draft[..accepted] == argmax[..accepted]
    {
      if argmax[i] != draft[i] {
        break;
      }
      accepted := accepted + 1;
    }
  }

  /** The longest prefix of `draft` on the greedy trajectory that starts at `prefix`. */
  function Agreement(next: Model, prefix: seq<Token>, draft: seq<Token>): (n: nat)
    ensures n <= |draft|
    decreases |draft|
  {
    if draft == [] || draft[0] != next(prefix) then 0
    else 1 + Agreement(next, prefix + [draft[0]], draft[1..])
  }

  /** The drafts that agree are the next steps of the trajectory, and the draft after them is not. */
  lemma {:induction false} AgreementIs(next: Model, prefix: seq<Token>, draft: seq<Token>)
    ensures var n := Agreement(next, prefix, draft);
            && prefix + draft[..n] == Extend(next, prefix, n)
            && (n < |draft| ==> draft[n] != next(prefix + draft[..n]))
    decreases |draft|
  {
    var n := Agreement(next, prefix, draft);
    if n == 0 {
      assert prefix + draft[..0] == prefix;
    } else {
      var d := [draft[0]];
      AgreementIs(next, prefix + d, draft[1..]);
      assert prefix + draft[..n] == prefix + d + draft[1..][..n - 1];
      assert Extend(next, prefix, 1) == prefix + d by { assert Extend(next, prefix, 0) == prefix; }
      ExtendExtends(next, prefix, 1, n - 1);
    }
  }

  /** What a round commits: the agreeing drafts and the target's own next token. */
  function Committed(next: Model, prefix: seq<Token>, draft: seq<Token>): (c: seq<Token>)
    ensures 1 <= |c| <= |draft| + 1
  {
    var n := Agreement(next, prefix, draft);
    draft[..n] + [next(prefix + draft[..n])]
  }

  /** A round is lossless whatever was drafted: it commits the next steps of the trajectory. */
  lemma {:induction false} RoundIsLossless(next: Model, prefix: seq<Token>, draft: seq<Token>)
    ensures prefix + Committed(next, prefix, draft) == Extend(next, prefix, Agreement(next, prefix, draft) + 1)
    decreases |draft|
  {
    assert Extend(next, prefix, 0) == prefix;
    if draft == [] || draft[0] != next(prefix) {
      assert prefix + draft[..0] == prefix;
    } else {
      var d := [draft[0]];
      var n := Agreement(next, prefix, draft);
      RoundIsLossless(next, prefix + d, draft[1..]);
      assert draft[..n] == d + draft[1..][..n - 1];
      assert prefix + draft[..n] == prefix + d + draft[1..][..n - 1];
      assert prefix + Committed(next, prefix, draft) == prefix + d + Committed(next, prefix + d, draft[1..]);
      ExtendExtends(next, prefix, 1, n);
    }
  }

  /** The scan against the verify forward finds that agreement: its row `i` is the argmax after
      the anchor and the first `i` drafts. */
  lemma {:induction false} ScanFindsAgreement(next: Model, prefix: seq<Token>, draft: seq<Token>, argmax: seq<Token>,
                                              accepted: nat)
    requires |argmax| == |draft| + 1
    requires forall i :: 0 <= i <= |draft| ==> argmax[i] == next(prefix + draft[..i])
    requires accepted <= |draft| && draft[..accepted] == argmax[..accepted]
    requires accepted < |draft| ==> draft[accepted] != argmax[accepted]
    ensures accepted == Agreement(next, prefix, draft)
    ensures draft[..accepted] + [argmax[accepted]] == Committed(next, prefix, draft)
    decreases |draft|
  {
    assert prefix + draft[..0] == prefix;
    if accepted > 0 {
      assert draft[0] == draft[..accepted][0] == argmax[..accepted][0] == next(prefix);
      var p, d, a := prefix + [draft[0]], draft[1..], argmax[1..];
      forall i | 0 <= i <= |d|
        ensures a[i] == next(p + d[..i])
      {
        assert prefix + draft[..i + 1] == p + d[..i];
      }
      assert d[..accepted - 1] == draft[..accepted][1..] == argmax[..accepted][1..] == a[..accepted - 1];
      ScanFindsAgreement(next, p, d, a, accepted - 1);
    }
  }

  // ---- the drafter's cache ----------------------------------------------------------------

  datatype Status = Ok | ValueError

  /** The drafter's unpaged cache: it grows by what a forward injects and is cut back each round. */
  class DraftCache {
    var rows: seq<HiddenRow>

    constructor ()
      ensures rows == []
    {
      rows := [];
    }

    method Update(more: seq<HiddenRow>)
      modifies this
      ensures rows == old(rows) + more
    {
      rows := rows + more;
    }

    method TruncateTo(length: int) returns (status: Status)
      modifies this
      ensures status == if 0 <= length <= |old(rows)| then Ok else ValueError
      ensures rows == if status.Ok? then old(rows)[..length] else old(rows)
    {
      if length < 0 || length > |rows| {
        return ValueError;
      }
      if length < |rows| {
        rows := rows[..length];
      }
      return Ok;
    }
  }

  /** Slicing a position table of `size` entries: the bounds are clamped, so a slice that runs
      past the end comes back short instead of failing. */
  function SliceLength(size: nat, lo: nat, hi: nat): (n: nat)
    ensures lo <= hi <= size ==> n == hi - lo
    ensures lo <= size < hi ==> n == size - lo
    ensures lo > size || lo > hi ==> n == 0
  {
    var l, h := if lo < size then lo else size, if hi < size then hi else size;
    if l <= h then h - l else 0
  }

  // ---- the multi-round loop of the parity check -------------------------------------------

  /** The position table has this many entries more than the prompt. */
  const TABLE_SLACK := 64

  /** The committed output after the given rounds, from an output that ends in its anchor. */
  function Rounds(next: Model, output: seq<Token>, proposals: seq<seq<Token>>): (out: seq<Token>)
    ensures output <= out
    decreases |proposals|
  {
    if proposals == [] then output
    else Rounds(next, output + Committed(next, output, proposals[0]), proposals[1..])
  }

  /** Where round `r` starts: the committed length before it, its anchor left out. */
  function RoundStart(next: Model, prompt: seq<Token>, proposals: seq<seq<Token>>, r: nat): (start: int)
    requires r <= |proposals|
  {
    |Rounds(next, prompt + [next(prompt)], proposals[..r])| - 1
  }

  lemma {:induction false} RoundsSnoc(next: Model, output: seq<Token>, proposals: seq<seq<Token>>, last: seq<Token>)
    ensures var before := Rounds(next, output, proposals);
            Rounds(next, output, proposals + [last]) == before + Committed(next, before, last)
    decreases |proposals|
  {
    if proposals == [] {
      assert proposals + [last] == [last] && [last][1..] == [];
    } else {
      RoundsSnoc(next, output + Committed(next, output, proposals[0]), proposals[1..], last);
      assert (proposals + [last])[1..] == proposals[1..] + [last];
    }
  }

  /** Over any number of rounds and any drafts, the output stays on the greedy trajectory. */
  lemma {:induction false} RoundsAreLossless(next: Model, prompt: seq<Token>, n: nat, proposals: seq<seq<Token>>)
    ensures var out := Rounds(next, Extend(next, prompt, n), proposals);
            |out| >= |prompt| + n && out == Extend(next, prompt, |out| - |prompt|)
    decreases |proposals|
  {
    hide Agreement, Committed;
    if proposals != [] {
      var output := Extend(next, prompt, n);
      var a := Agreement(next, output, proposals[0]);
      RoundIsLossless(next, output, proposals[0]);
      ExtendExtends(next, prompt, n, a + 1);
      RoundsAreLossless(next, prompt, n + a + 1, proposals[1..]);
    }
  }

  /** So the committed output and the one-token-at-a-time loop agree at every position that both
      reach, whatever was drafted and wherever that loop stopped. */
  lemma ParityAgreesWithBaseline(next: Model, eos: Option<Token>, prompt: seq<Token>, maxTokens: int,
                                 proposals: seq<seq<Token>>)
    ensures var out := Rounds(next, prompt + [next(prompt)], proposals)[|prompt|..];
            var alone := GreedyTokens(next, eos, prompt, maxTokens);
            out <= alone || alone <= out
  {
    var output := Rounds(next, prompt + [next(prompt)], proposals);
    var out, alone := output[|prompt|..], GreedyTokens(next, eos, prompt, maxTokens);
    assert Extend(next, prompt, 1) == prompt + [next(prompt)] by { assert Extend(next, prompt, 0) == prompt; }
    hide Extend, Rounds, GreedyTokens;
    RoundsAreLossless(next, prompt, 1, proposals);
    GreedyTokensOnTrajectory(next, eos, prompt, maxTokens);
    if |out| <= |alone| {
      ExtendPrefix(next, prompt, |out|, |alone|);
      WithoutHead(prompt, output, prompt + alone);
    } else {
      ExtendPrefix(next, prompt, |alone|, |out|);
      WithoutHead(prompt, prompt + alone, output);
    }
  }

  lemma WithoutHead(head: seq<Token>, x: seq<Token>, y: seq<Token>)
    requires head <= x <= y
    ensures x[|head|..] <= y[|head|..] && forall z :: x == head + z ==> x[|head|..] == z
    ensures forall z :: y == head + z ==> y[|head|..] == z
  {
  }

  ghost predicate Blocks(proposals: seq<seq<Token>>, blockSize: nat)
  {
    forall r :: 0 <= r < |proposals| ==> |proposals[r]| == blockSize
  }

  /** Each round advances by 1 to blockSize + 1. */
  lemma {:induction false} RoundsAdvance(next: Model, output: seq<Token>, proposals: seq<seq<Token>>, blockSize: nat)
    requires Blocks(proposals, blockSize)
    ensures |output| + |proposals| <= |Rounds(next, output, proposals)| <= |output| + |proposals| * (blockSize + 1)
    decreases |proposals|
  {
    if proposals != [] {
      var committed := Committed(next, output, proposals[0]);
      assert |committed| <= blockSize + 1;
      RoundsAdvance(next, output + committed, proposals[1..], blockSize);
      assert |proposals| * (blockSize + 1) == (|proposals| - 1) * (blockSize + 1) + (blockSize + 1);
    }
  }

  /** The drafter that reads the target's mind: every draft is accepted. */
  function PerfectDrafts(next: Model, output: seq<Token>, blockSize: nat, rounds: nat): (ps: seq<seq<Token>>)
    ensures |ps| == rounds && Blocks(ps, blockSize)
    decreases rounds
  {
    if rounds == 0 then []
    else
      var block := PerfectBlock(next, output, blockSize);
      [block] + PerfectDrafts(next, output + Committed(next, output, block), blockSize, rounds - 1)
  }

  lemma {:induction false} PerfectBlockAccepted(next: Model, output: seq<Token>, block: seq<Token>)
    requires output + block == Extend(next, output, |block|)
    ensures Agreement(next, output, block) == |block|
    decreases |block|
  {
    if block != [] {
      assert (output + block)[..|output|] == output && (output + block)[|output|] == block[0];
      ExtendPrefix(next, output, 1, |block|);
      assert Extend(next, output, 1) == output + [block[0]] by { assert Extend(next, output, 0) == output; }
      ExtendExtends(next, output, 1, |block| - 1);
      assert output + block == output + [block[0]] + block[1..];
      PerfectBlockAccepted(next, output + [block[0]], block[1..]);
    }
  }

  function PerfectBlock(next: Model, output: seq<Token>, blockSize: nat): (block: seq<Token>)
    ensures |block| == blockSize && output + block == Extend(next, output, blockSize)
  {
    Extend(next, output, blockSize)[|output|..]
  }

  lemma PerfectRound(next: Model, output: seq<Token>, blockSize: nat)
    ensures |Committed(next, output, PerfectBlock(next, output, blockSize))| == blockSize + 1
  {
    PerfectBlockAccepted(next, output, PerfectBlock(next, output, blockSize));
  }

  lemma RoundsTimes(rounds: nat, width: nat)
    requires rounds > 0
    ensures rounds * width == (rounds - 1) * width + width
  {
  }

  lemma {:induction false} PerfectDraftsAdvance(next: Model, output: seq<Token>, blockSize: nat, rounds: nat)
    ensures |Rounds(next, output, PerfectDrafts(next, output, blockSize, rounds))|
        == |output| + rounds * (blockSize + 1)
    decreases rounds
  {
    if rounds > 0 {
      var after := output + Committed(next, output, PerfectBlock(next, output, blockSize));
      PerfectRound(next, output, blockSize);
      PerfectDraftsAdvance(next, after, blockSize, rounds - 1);
      hide Committed, PerfectBlock;
      assert PerfectDrafts(next, output, blockSize, rounds)[1..] == PerfectDrafts(next, after, blockSize, rounds - 1);
      RoundsTimes(rounds, blockSize + 1);
    }
  }

  /** Every position a run asks for is in the position table. */
  ghost predicate TableCovers(next: Model, prompt: seq<Token>, blockSize: nat, proposals: seq<seq<Token>>)
  {
    forall r :: 0 <= r < |proposals| ==>
      RoundStart(next, prompt, proposals, r) + blockSize <= |prompt| + TABLE_SLACK
  }

  lemma ProductGrows(a: nat, b: nat, width: nat)
    requires a <= b
    ensures a * width <= b * width
  {
    assert b * width == a * width + (b - a) * width;
  }

  lemma TableLongEnough(next: Model, prompt: seq<Token>, blockSize: nat, ps: seq<seq<Token>>)
    requires Blocks(ps, blockSize)
    requires |ps| * (blockSize + 1) <= TABLE_SLACK + 1
    ensures TableCovers(next, prompt, blockSize, ps)
  {
    forall r | 0 <= r < |ps|
      ensures RoundStart(next, prompt, ps, r) + blockSize <= |prompt| + TABLE_SLACK
    {
      RoundsAdvance(next, prompt + [next(prompt)], ps[..r], blockSize);
      ProductGrows(r + 1, |ps|, blockSize + 1);
      assert (r + 1) * (blockSize + 1) == r * (blockSize + 1) + (blockSize + 1);
    }
  }

  lemma PerfectDrafterOverruns(next: Model, prompt: seq<Token>, blockSize: nat, rounds: nat)
    returns (ps: seq<seq<Token>>)
    requires rounds > 0 && rounds * (blockSize + 1) > TABLE_SLACK + 1
    ensures |ps| == rounds && Blocks(ps, blockSize) && !TableCovers(next, prompt, blockSize, ps)
  {
    var output := prompt + [next(prompt)];
    var short := PerfectDrafts(next, output, blockSize, rounds - 1);
    PerfectDraftsAdvance(next, output, blockSize, rounds - 1);
    ps := short + [seq(blockSize, _ => 0)];
    assert rounds * (blockSize + 1) == (rounds - 1) * (blockSize + 1) + (blockSize + 1);
    assert RoundStart(next, prompt, ps, rounds - 1) == |Rounds(next, output, short)| - 1 by {
      assert ps[..rounds - 1] == short;
    }
  }

  /** The table is long enough for every drafter exactly when rounds * (blockSize + 1) <= 65. */
  lemma TableCoversExactly(next: Model, prompt: seq<Token>, blockSize: nat, rounds: nat)
    requires rounds > 0
    ensures rounds * (blockSize + 1) <= 65
       <==> (forall ps: seq<seq<Token>> :: |ps| == rounds && Blocks(ps, blockSize) ==>
             TableCovers(next, prompt, blockSize, ps))
  {
    if rounds * (blockSize + 1) <= TABLE_SLACK + 1 {
      forall ps: seq<seq<Token>> | |ps| == rounds && Blocks(ps, blockSize)
        ensures TableCovers(next, prompt, blockSize, ps)
      {
        TableLongEnough(next, prompt, blockSize, ps);
      }
    } else {
      var ps := PerfectDrafterOverruns(next, prompt, blockSize, rounds);
    }
  }

  datatype RoundRecord = RoundRecord(start: nat, accepted: nat, positions: nat, injected: nat)

  /** What cropping and re-slicing keep after a round: the target cache holds the committed
      tokens before the new anchor, and the verified rows that follow the drafter's cache are
      the tapped rows of exactly those tokens. */
  lemma CachesFollowCommit(output: seq<Token>, proposal: seq<Token>, accepted: nat, bonus: Token)
    requires output != [] && accepted <= |proposal|
    ensures var held, fed := output[..|output| - 1], [output[|output| - 1]] + proposal;
            var after := output + proposal[..accepted] + [bonus];
            && (held + fed)[..|output| + accepted] == after[..|after| - 1]
            && HiddenRows([], held) + HiddenRows(held, fed)[..accepted + 1] == HiddenRows([], after[..|after| - 1])
  {
    var held, fed := output[..|output| - 1], [output[|output| - 1]] + proposal;
    var after := output + proposal[..accepted] + [bonus];
    var kept := fed[..accepted + 1];
    assert held + kept == after[..|after| - 1];
    HiddenRowsAppend([], held, kept);
    assert [] + held == held;
    forall i | 0 <= i < accepted + 1
      ensures HiddenRows(held, fed)[i] == HiddenRows(held, kept)[i]
    {
      assert fed[..i + 1] == kept[..i + 1];
    }
    assert HiddenRows(held, fed)[..accepted + 1] == HiddenRows(held, kept);
  }

  /** The state at a round start: the output ends in its anchor, the target cache holds all of it
      before the anchor, and the drafter's cache with the pending context rows cover the same. */
  ghost predicate Bookkept(output: seq<Token>, target: TargetCache, draft: DraftCache, context: seq<HiddenRow>)
    reads target, draft
  {
    && output != []
    && target.tokens == output[..|output| - 1]
    && draft.rows + context == HiddenRows([], output[..|output| - 1])
  }

  /** The drafter's part of a round: its forward injects the context and its own block, and the
      block is always dropped again. */
  method InjectContext(draft: DraftCache, context: seq<HiddenRow>, blockSize: nat, start: nat)
    requires |draft.rows| + |context| == start
    modifies draft
    ensures draft.rows == old(draft.rows) + context
  {
    draft.Update(context + seq(blockSize, _ => Masked));
    var status := draft.TruncateTo(start);
    assert status == Ok;
  }

  /** The target's part of a round: one forward over the anchor and the offered drafts, the scan,
      and the bonus token from the row after the last accepted draft. */
  method VerifyBlock(next: Model, target: TargetCache, ghost output: seq<Token>, anchor: Token, offered: seq<Token>,
                     start: nat)
    returns (accepted: nat, bonus: Token, verified: seq<HiddenRow>)
    requires output == target.tokens + [anchor] && start == |target.tokens|
    modifies target
    ensures target.tokens == old(target.tokens) + ([anchor] + offered)
    ensures accepted == Agreement(next, output, offered) <= |offered|
    ensures offered[..accepted] + [bonus] == Committed(next, output, offered)
    ensures verified == HiddenRows(old(target.tokens), [anchor] + offered)
  {
    var argmax;
    ghost var held := target.tokens;
    argmax, verified := target.Forward(next, [anchor] + offered, start);
    accepted := CountAccepted(offered, argmax);
    bonus := argmax[accepted];
    forall i | 0 <= i <= |offered|
      ensures argmax[i] == next(output + offered[..i])
    {
      assert held + ([anchor] + offered)[..i + 1] == output + offered[..i];
    }
    ScanFindsAgreement(next, output, offered, argmax, accepted);
  }

  /** The end of a round: the target cache loses the rejected tail, and the rows of the anchor and
      the accepted drafts become the next context. */
  method Settle(target: TargetCache, draft: DraftCache, ghost output: seq<Token>, ghost offered: seq<Token>,
                accepted: nat, ghost bonus: Token, verified: seq<HiddenRow>, newStart: nat)
    returns (context: seq<HiddenRow>)
    requires output != [] && accepted <= |offered| && newStart == |output| + accepted
    requires target.tokens == output[..|output| - 1] + ([output[|output| - 1]] + offered)
    requires draft.rows == HiddenRows([], output[..|output| - 1])
    requires verified == HiddenRows(output[..|output| - 1], [output[|output| - 1]] + offered)
    modifies target
    ensures Bookkept(output + (offered[..accepted] + [bonus]), target, draft, context)
  {
    CachesFollowCommit(output, offered, accepted, bonus);
    assert output + offered[..accepted] + [bonus] == output + (offered[..accepted] + [bonus]);
    target.Crop(newStart);
    context := verified[..accepted + 1];
  }

  /** One round: draft, verify, keep the agreeing prefix, commit the bonus, crop both caches. */
  method ParityRound(next: Model, tableSize: nat, output: seq<Token>, proposal: seq<Token>, target: TargetCache,
                     draft: DraftCache, context: seq<HiddenRow>)
    returns (output': seq<Token>, context': seq<HiddenRow>, record: RoundRecord)
    requires Bookkept(output, target, draft, context)
    modifies target, draft
    ensures Bookkept(output', target, draft, context')
    ensures output' == output + Committed(next, output, proposal)
    ensures record.start == |output| - 1 && record.start + record.accepted + 1 == |output'| - 1
    ensures record.injected == |context| && |draft.rows| == record.start
    ensures PositionsLeft(record, record.start + |proposal|, tableSize)
  {
    var curStart := |output| - 1;
    var anchor := output[curStart];
    var positions := SliceLength(tableSize, |draft.rows|, curStart + |proposal|);
    InjectContext(draft, context, |proposal|, curStart);
    var accepted, bonus, verified := VerifyBlock(next, target, output, anchor, proposal, curStart);
    output' := output[..curStart + 1] + (proposal[..accepted] + [bonus]);
    assert output[..curStart + 1] == output;
    record := RoundRecord(curStart, accepted, positions, |context|);
    context' := Settle(target, draft, output, proposal, accepted, bonus, verified, curStart + accepted + 1);
  }

  /** The round got a position for each row from the first injected one up to `end`, as far as the table
      reaches. */
  ghost predicate PositionsLeft(record: RoundRecord, end: nat, tableSize: nat)
  {
    var first := record.start - record.injected;
    record.positions == if end <= tableSize then end - first else if first <= tableSize then tableSize - first else 0
  }

  /** Round `r` started and ended where the run says. It injected the rows committed since the round before,
      at first those of the prompt, and got those positions of the injected rows and the block that are
      in the table of |prompt| + 64 entries. */
  ghost predicate RecordMatches(next: Model, prompt: seq<Token>, blockSize: nat, proposals: seq<seq<Token>>, r: nat,
                                record: RoundRecord)
    requires r < |proposals|
  {
    && record.start == RoundStart(next, prompt, proposals, r)
    && record.start + record.accepted + 1 == RoundStart(next, prompt, proposals, r + 1)
    && record.injected == record.start - (if r == 0 then 0 else RoundStart(next, prompt, proposals, r - 1))
    && PositionsLeft(record, record.start + blockSize, |prompt| + 64)
  }

  /** The loop of check 3. `proposals[r]` is whatever the drafter said in round `r`. */
  method ParityRounds(next: Model, prompt: seq<Token>, blockSize: nat, proposals: seq<seq<Token>>)
    returns (output: seq<Token>, rounds: seq<RoundRecord>, target: TargetCache, draft: DraftCache,
             context: seq<HiddenRow>)
    requires prompt != [] && blockSize >= 1 && Blocks(proposals, blockSize)
    ensures output == Rounds(next, prompt + [next(prompt)], proposals)
    ensures fresh(target) && fresh(draft) && Bookkept(output, target, draft, context)
    ensures |rounds| == |proposals|
    ensures forall r :: 0 <= r < |rounds| ==> RecordMatches(next, prompt, blockSize, proposals, r, rounds[r])
  {
    hide Committed, PositionsLeft;
    target := new TargetCache();
    draft := new DraftCache();
    var primed;
    primed, context := target.Forward(next, prompt, 0);
    var anchor := primed[|prompt| - 1];
    assert [] + prompt == prompt && prompt[..|prompt|] == prompt;
    output := prompt + [anchor];
    rounds := [];
    assert output[..|output| - 1] == prompt;
    for r := 0 to |proposals|
      invariant |rounds| == r && fresh(target) && fresh(draft)
      invariant output == Rounds(next, prompt + [next(prompt)], proposals[..r])
      invariant Bookkept(output, target, draft, context)
      invariant |draft.rows| == if r == 0 then 0 else RoundStart(next, prompt, proposals, r - 1)
      invariant forall q :: 0 <= q < r ==> RecordMatches(next, prompt, blockSize, proposals, q, rounds[q])
    {
      var record;
      RoundsSnoc(next, prompt + [next(prompt)], proposals[..r], proposals[r]);
      assert proposals[..r + 1] == proposals[..r] + [proposals[r]];
      output, context, record :=
        ParityRound(next, |prompt| + TABLE_SLACK, output, proposals[r], target, draft, context);
      assert output == Rounds(next, prompt + [next(prompt)], proposals[..r + 1]);
      assert RecordMatches(next, prompt, blockSize, proposals, r, record);
      rounds := rounds + [record];
    }
    assert proposals[..|proposals|] == proposals;
  }

  // ---- the batch-1 runner -----------------------------------------------------------------

  datatype Draft = Draft(tokens: seq<Token>, confidence: Option<seq<real>>)

  /** The drafter never says more than its block, and its confidences go with its tokens. */
  ghost predicate DraftsWithin(drafts: nat -> Draft, blockSize: nat)
  {
    forall r: nat :: |drafts(r).tokens| == blockSize
      && (drafts(r).confidence.Some? ==> |drafts(r).confidence.value| == blockSize)
  }

  /** How many leading drafts to offer: up to the first survival probability below a positive
      threshold. */
  method ConfidentPrefixLength(confidence: seq<real>, blockSize: nat, threshold: real) returns (n: nat)
    requires |confidence| == blockSize
    ensures n <= blockSize
    ensures threshold <= 0.0 ==> n == blockSize
    ensures threshold > 0.0 ==> forall i :: 0 <= i < n ==> confidence[i] >= threshold
    ensures n < blockSize ==> confidence[n] < threshold
  {
    if threshold <= 0.0 {
      return blockSize;
    }
    for i := 0 to blockSize
      invariant forall j :: 0 <= j < i ==> confidence[j] >= threshold
    {
      if confidence[i] < threshold {
        return i;
      }
    }
    return blockSize;
  }

  /** `n` is how many drafts are worth verifying: all of them without confidences or a positive threshold,
      else those before the first whose confidence is below it. */
  ghost predicate WorthVerifying(proposed: Draft, threshold: real, n: nat)
  {
    && n <= |proposed.tokens|
    && if proposed.confidence.None? || threshold <= 0.0 then n == |proposed.tokens|
       else
         var confidence := proposed.confidence.value;
         && n <= |confidence| && (forall i :: 0 <= i < n ==> confidence[i] >= threshold)
         && (n < |confidence| ==> confidence[n] < threshold)
  }

  /** The drafts worth verifying. */
  method Offer(proposed: Draft, blockSize: nat, threshold: real) returns (offered: seq<Token>)
    requires |proposed.tokens| == blockSize && (proposed.confidence.Some? ==> |proposed.confidence.value| == blockSize)
    ensures offered <= proposed.tokens && WorthVerifying(proposed, threshold, |offered|)
  {
    var length := blockSize;
    if proposed.confidence.Some? {
      length := ConfidentPrefixLength(proposed.confidence.value, blockSize, threshold);
    }
    offered := proposed.tokens[..length];
  }

  /** Takes committed tokens while there is room, up to and with the first EOS. */
  method Emit(eos: Option<Token>, committed: seq<Token>, room: nat) returns (emitted: seq<Token>, hitEos: bool)
    ensures |emitted| <= room && emitted <= committed
    ensures forall i :: 0 <= i < |emitted| - 1 ==> !IsEos(eos, emitted[i])
    ensures if hitEos then emitted != [] && IsEos(eos, emitted[|emitted| - 1])
            else |emitted| == (if |committed| <= room then |committed| else room) && forall i :: 0 <= i < |emitted| ==>
              !IsEos(eos, emitted[i])
  {
    emitted, hitEos := [], false;
    var most := if |committed| <= room then |committed| else room;
    for i := 0 to most
      invariant emitted == committed[..i]
      invariant forall j :: 0 <= j < i ==> !IsEos(eos, emitted[j])
    {
      emitted := emitted + [committed[i]];
      if IsEos(eos, committed[i]) {
        hitEos := true;
        break;
      }
    }
  }

  datatype Stats = Stats(acceptanceLengths: seq<nat>, proposalLengths: seq<nat>, acceptedDraftLengths: seq<nat>,
                         targetForwards: nat, drafterForwards: nat)

  function Sum(xs: seq<nat>): (s: nat)
  {
    if xs == [] then 0 else Sum(xs[..|xs| - 1]) + xs[|xs| - 1]
  }

  ghost predicate StatsConsistent(stats: Stats, blockSize: nat)
  {
    && |stats.proposalLengths| == |stats.acceptedDraftLengths| == |stats.acceptanceLengths| == stats.drafterForwards
    && stats.targetForwards == stats.drafterForwards + 1
    && forall r :: 0 <= r < stats.drafterForwards ==>
         stats.acceptanceLengths[r] == stats.acceptedDraftLengths[r] + 1
           && stats.acceptedDraftLengths[r] <= stats.proposalLengths[r] <= blockSize
  }

  /** What one round leaves behind: a finished output that the target alone would have produced,
      or an unfinished one with both caches in step. */
  ghost predicate RoundOutcome(next: Model, eos: Option<Token>, prompt: seq<Token>, maxTokens: int, blockSize: nat,
                               generated: seq<Token>, stats: Stats, finished: bool)
  {
    && CountsOutput(stats, blockSize, generated)
    && if finished then generated == GreedyTokens(next, eos, prompt, maxTokens)
       else Unfinished(next, eos, prompt, maxTokens, generated) && |generated| == 1 + Sum(stats.acceptanceLengths)
  }

  /** Appending emitted tokens keeps the output on the trajectory. */
  lemma EmittedOnTrajectory(next: Model, prompt: seq<Token>, n: nat, output: seq<Token>, offered: seq<Token>, k: nat)
    requires output == Extend(next, prompt, n) && k <= |Committed(next, output, offered)|
    ensures output + Committed(next, output, offered)[..k] == Extend(next, prompt, n + k)
  {
    var c := Committed(next, output, offered);
    RoundIsLossless(next, output, offered);
    ExtendExtends(next, prompt, n, |c|);
    ExtendPrefix(next, prompt, n + k, n + |c|);
    assert (output + c)[..|prompt| + n + k] == output + c[..k];
  }

  /** Where the runner is at a loop head: on the trajectory, short of the limit and of EOS. */
  ghost predicate Unfinished(next: Model, eos: Option<Token>, prompt: seq<Token>, maxTokens: int, generated: seq<Token>)
  {
    && 1 <= |generated| < maxTokens
    && prompt + generated == Extend(next, prompt, |generated|)
    && forall i :: 0 <= i < |generated| ==> !IsEos(eos, generated[i])
  }

  /** After the tokens of one round are emitted, the run is either finished, with exactly the
      target-alone output, or unfinished with everything committed. */
  lemma EmissionOutcome(next: Model, eos: Option<Token>, prompt: seq<Token>, maxTokens: int, generated: seq<Token>,
                        offered: seq<Token>, emitted: seq<Token>, hitEos: bool)
    requires Unfinished(next, eos, prompt, maxTokens, generated)
    requires emitted <= Committed(next, prompt + generated, offered) && |emitted| <= maxTokens - |generated|
    requires forall i :: 0 <= i < |emitted| - 1 ==> !IsEos(eos, emitted[i])
    requires emitted != [] && (hitEos <==> IsEos(eos, emitted[|emitted| - 1]))
    ensures var after := generated + emitted;
            if hitEos || |after| >= maxTokens then after == GreedyTokens(next, eos, prompt, maxTokens)
            else Unfinished(next, eos, prompt, maxTokens, after)
  {
    hide Extend, Committed, GreedyTokens;
    var after := generated + emitted;
    EmittedOnTrajectory(next, prompt, |generated|, prompt + generated, offered, |emitted|);
    assert prompt + after == prompt + generated + emitted;
    GreedyTokensCharacterised(next, eos, prompt, maxTokens, after);
  }

  /** One more round: the counters that go with it. */
  function Recorded(stats: Stats, offered: nat, accepted: nat): (s: Stats)
  {
    Stats(stats.acceptanceLengths + [accepted + 1], stats.proposalLengths + [offered],
          stats.acceptedDraftLengths + [accepted],
          stats.targetForwards + 1, stats.drafterForwards + 1)
  }

  /** What the runner's counters say about its output: every round but the last commits all it
      accepted, so the output is one token plus the acceptance lengths, up to the last cut. */
  ghost predicate CountsOutput(stats: Stats, blockSize: nat, generated: seq<Token>)
  {
    var a := stats.acceptanceLengths;
    && StatsConsistent(stats, blockSize)
    && (if a == [] then |generated| == 1 else 1 + Sum(a[..|a| - 1]) < |generated| <= 1 + Sum(a))
  }

  lemma RoundCounted(stats: Stats, blockSize: nat, generated: seq<Token>, offered: nat, accepted: nat,
                     emitted: seq<Token>)
    requires StatsConsistent(stats, blockSize) && |generated| == 1 + Sum(stats.acceptanceLengths)
    requires accepted <= offered <= blockSize && 1 <= |emitted| <= accepted + 1
    ensures var s := Recorded(stats, offered, accepted);
            CountsOutput(s, blockSize, generated + emitted)
              && Sum(s.acceptanceLengths) == Sum(stats.acceptanceLengths) + accepted + 1
  {
  }

  /** Of the first `offered` drafts the first `n` are the next steps of the trajectory after `before`, and the
      one behind them is not. */
  ghost predicate OnTrajectory(next: Model, before: seq<Token>, drafts: seq<Token>, offered: nat, n: nat)
  {
    && n <= offered <= |drafts|
    && before + drafts[..n] == Extend(next, before, n)
    && (n < offered ==> drafts[n] != next(before + drafts[..n]))
  }

  /** What the counters of round `r` mean: how many of its drafts were worth verifying, and how many of those
      were the next steps of the trajectory after what the rounds before had committed. */
  ghost predicate RoundLogged(next: Model, prompt: seq<Token>, threshold: real, proposed: Draft, stats: Stats, r: nat)
  {
    && r < |stats.acceptanceLengths| && r < |stats.proposalLengths| && r < |stats.acceptedDraftLengths|
    && WorthVerifying(proposed, threshold, stats.proposalLengths[r])
    && OnTrajectory(next, Extend(next, prompt, 1 + Sum(stats.acceptanceLengths[..r])), proposed.tokens,
                    stats.proposalLengths[r], stats.acceptedDraftLengths[r])
    && stats.acceptanceLengths[r] == stats.acceptedDraftLengths[r] + 1
  }

  lemma AgreementOnTrajectory(next: Model, before: seq<Token>, drafts: seq<Token>, offered: seq<Token>)
    requires offered <= drafts
    ensures OnTrajectory(next, before, drafts, |offered|, Agreement(next, before, offered))
  {
    AgreementIs(next, before, offered);
    hide Extend, Agreement;
    var n := Agreement(next, before, offered);
    assert n <= |offered| ==> offered[..n] == drafts[..n];
  }

  lemma RecordedIsLogged(next: Model, prompt: seq<Token>, threshold: real, proposed: Draft, stats: Stats,
                         generated: seq<Token>, offered: seq<Token>)
    requires prompt + generated == Extend(next, prompt, |generated|)
    requires |generated| == 1 + Sum(stats.acceptanceLengths)
    requires |stats.proposalLengths| == |stats.acceptedDraftLengths| == |stats.acceptanceLengths|
    requires offered <= proposed.tokens && WorthVerifying(proposed, threshold, |offered|)
    ensures var s := Recorded(stats, |offered|, Agreement(next, prompt + generated, offered));
            RoundLogged(next, prompt, threshold, proposed, s, |stats.acceptanceLengths|)
  {
    hide Extend, Agreement, WorthVerifying, OnTrajectory, Sum;
    AgreementOnTrajectory(next, prompt + generated, proposed.tokens, offered);
    var s := Recorded(stats, |offered|, Agreement(next, prompt + generated, offered));
    assert s.acceptanceLengths[..|stats.acceptanceLengths|] == stats.acceptanceLengths;
  }

  /** Later rounds leave the counters of the earlier ones. */
  lemma LoggedBefore(next: Model, prompt: seq<Token>, threshold: real, proposed: Draft, stats: Stats, offered: nat,
                     accepted: nat, r: nat)
    requires RoundLogged(next, prompt, threshold, proposed, stats, r)
    ensures RoundLogged(next, prompt, threshold, proposed, Recorded(stats, offered, accepted), r)
  {
    assert Recorded(stats, offered, accepted).acceptanceLengths[..r] == stats.acceptanceLengths[..r];
  }

  /** Each round so far is logged. */
  ghost predicate AllLogged(next: Model, prompt: seq<Token>, threshold: real, drafts: nat -> Draft, stats: Stats)
  {
    forall r: nat :: r < stats.drafterForwards ==> RoundLogged(next, prompt, threshold, drafts(r), stats, r)
  }

  lemma OneMoreLogged(next: Model, prompt: seq<Token>, threshold: real, drafts: nat -> Draft, stats: Stats,
                      stats': Stats)
    requires AllLogged(next, prompt, threshold, drafts, stats)
    requires RoundLogged(next, prompt, threshold, drafts(stats.drafterForwards), stats', stats.drafterForwards)
    requires exists offered: nat, accepted: nat :: stats' == Recorded(stats, offered, accepted)
    ensures AllLogged(next, prompt, threshold, drafts, stats')
  {
    var offered: nat, accepted: nat :| stats' == Recorded(stats, offered, accepted);
    forall r: nat | r < stats'.drafterForwards
      ensures RoundLogged(next, prompt, threshold, drafts(r), stats', r)
    {
      if r < stats.drafterForwards {
        LoggedBefore(next, prompt, threshold, drafts(r), stats, offered, accepted, r);
      }
    }
  }

  /** The emitting half of a pass: as much of the committed tokens as fits, and the counters. */
  method EmitRound(next: Model, eos: Option<Token>, ghost prompt: seq<Token>, maxTokens: int, ghost blockSize: nat,
                   generated: seq<Token>, stats: Stats, offered: seq<Token>, accepted: nat, bonus: Token)
    returns (emitted: seq<Token>, stats': Stats, finished: bool)
    requires Unfinished(next, eos, prompt, maxTokens, generated)
    requires StatsConsistent(stats, blockSize) && |generated| == 1 + Sum(stats.acceptanceLengths)
    requires accepted <= |offered| <= blockSize
    requires offered[..accepted] + [bonus] == Committed(next, prompt + generated, offered)
    ensures RoundOutcome(next, eos, prompt, maxTokens, blockSize, generated + emitted, stats', finished)
    ensures !finished ==> emitted == offered[..accepted] + [bonus]
    ensures stats' == Recorded(stats, |offered|, accepted)
  {
    var hitEos;
    emitted, hitEos := Emit(eos, offered[..accepted] + [bonus], maxTokens - |generated|);
    EmissionOutcome(next, eos, prompt, maxTokens, generated, offered, emitted, hitEos);
    RoundCounted(stats, blockSize, generated, |offered|, accepted, emitted);
    stats' := Recorded(stats, |offered|, accepted);
    finished := hitEos || |generated| + |emitted| >= maxTokens;
  }

  /** One pass of the runner's loop. */
  method RunnerRound(next: Model, eos: Option<Token>, ghost prompt: seq<Token>, maxTokens: int, blockSize: nat,
      threshold: real, proposed: Draft, target: TargetCache, draft: DraftCache, start: nat, generated: seq<Token>,
        context: seq<HiddenRow>, stats: Stats)
    returns (generated': seq<Token>, context': seq<HiddenRow>, stats': Stats, finished: bool)
    requires |proposed.tokens| == blockSize && (proposed.confidence.Some? ==> |proposed.confidence.value| == blockSize)
    requires Unfinished(next, eos, prompt, maxTokens, generated) && start == |prompt| + |generated| - 1
    requires Bookkept(prompt + generated, target, draft, context)
    requires StatsConsistent(stats, blockSize) && |generated| == 1 + Sum(stats.acceptanceLengths)
    modifies target, draft
    ensures RoundOutcome(next, eos, prompt, maxTokens, blockSize, generated', stats', finished)
    ensures exists offered: nat, accepted: nat :: stats' == Recorded(stats, offered, accepted)
    ensures RoundLogged(next, prompt, threshold, proposed, stats', stats.drafterForwards)
    ensures !finished ==> |generated'| > |generated| && Bookkept(prompt + generated', target, draft, context')
  {
    hide WorthVerifying, RoundLogged, Agreement, Extend, CountsOutput;
    ghost var output := prompt + generated;
    var anchor := generated[|generated| - 1];
    InjectContext(draft, context, blockSize, start);
    var offered := Offer(proposed, blockSize, threshold);
    var accepted, bonus, verified := VerifyBlock(next, target, output, anchor, offered, start);
    ghost var committed := offered[..accepted] + [bonus];
    var emitted;
    emitted, stats', finished :=
      EmitRound(next, eos, prompt, maxTokens, blockSize, generated, stats, offered, accepted, bonus);
    RecordedIsLogged(next, prompt, threshold, proposed, stats, generated, offered);
    generated', context' := generated + emitted, context;
    if !finished {
      assert prompt + generated' == output + committed;
      context' := Settle(target, draft, output, offered, accepted, bonus, verified, start + |emitted|);
    }
  }

  /** Batch-1 greedy speculative decoding. Whatever the drafter says and wherever the confidence
      cuts it, the result is what the target alone would have decoded. */
  method RunGreedy(next: Model, eos: Option<Token>, prompt: seq<Token>, maxTokens: int, blockSize: nat, threshold: real,
                   drafts: nat -> Draft)
    returns (result: seq<Token>, stats: Stats)
    requires DraftsWithin(drafts, blockSize)
    ensures result == if prompt == [] then [] else GreedyTokens(next, eos, prompt, maxTokens)
    ensures if result == [] then stats == Stats([], [], [], 0, 0) else CountsOutput(stats, blockSize, result)
    ensures AllLogged(next, prompt, threshold, drafts, stats)
  {
    stats := Stats([], [], [], 0, 0);
    if maxTokens < 1 || prompt == [] {
      return [], stats;
    }
    var target := new TargetCache();
    var draft := new DraftCache();
    var primed, context := target.Forward(next, prompt, 0);
    stats := stats.(targetForwards := 1);
    var anchor := primed[|prompt| - 1];
    assert [] + prompt == prompt && prompt[..|prompt|] == prompt;
    var generated := [anchor];
    assert prompt + generated == Extend(next, prompt, 1) by { assert Extend(next, prompt, 0) == prompt; }
    if IsEos(eos, anchor) || |generated| >= maxTokens {
      GreedyTokensCharacterised(next, eos, prompt, maxTokens, generated);
      return generated, stats;
    }
    assert (prompt + generated)[..|prompt|] == prompt;
    var finished := false;
    while !finished
      invariant RoundOutcome(next, eos, prompt, maxTokens, blockSize, generated, stats, finished)
      invariant !finished ==> Bookkept(prompt + generated, target, draft, context)
      invariant fresh(target) && fresh(draft) && AllLogged(next, prompt, threshold, drafts, stats)
      decreases !finished, maxTokens - |generated|
    {
      var start := |prompt| + |generated| - 1;
      ghost var before := stats;
      generated, context, stats, finished := RunnerRound(next, eos, prompt, maxTokens, blockSize, threshold,
        drafts(stats.drafterForwards), target, draft, start, generated, context, stats);
      OneMoreLogged(next, prompt, threshold, drafts, before, stats);
    }
    return generated, stats;
  }

  // ---- the target-alone baseline ----------------------------------------------------------

  /** One forward per token, and a memo table over (prompt, length). */
  class Baseline {
    const next: Model
    const eos: Option<Token>
    var memo: map<(seq<Token>, int), (seq<Token>, real)>

    constructor (next: Model, eos: Option<Token>)
      ensures this.next == next && this.eos == eos && memo == map[] && Valid()
    {
      this.next, this.eos, memo := next, eos, map[];
    }

    /** Every memoised answer is what recomputing it would return. */
    ghost predicate Valid()
      reads this
    {
      forall key :: key in memo ==> memo[key].0 == GreedyTokens(next, eos, key.0, key.1)
    }

    /** `out` is on the trajectory, and no token but the last can be EOS. */
    ghost predicate Decoded(prompt: seq<Token>, out: seq<Token>, maxTokens: int)
    {
      && out != [] && prompt + out == Extend(next, prompt, |out|)
      && (forall i :: 0 <= i < |out| - 1 ==> !IsEos(eos, out[i]))
      && (|out| == 1 || |out| <= maxTokens)
    }

    lemma DecodedStep(prompt: seq<Token>, out: seq<Token>, maxTokens: int)
      requires Decoded(prompt, out, maxTokens) && |out| < maxTokens && !IsEos(eos, out[|out| - 1])
      ensures Decoded(prompt, out + [next(prompt + out)], maxTokens)
    {
    }

    /** A fresh cache, the prompt in one forward, then one token per forward. */
    method Decode(prompt: seq<Token>, maxTokens: int) returns (kept: seq<Token>)
      requires prompt != []
      ensures kept == GreedyTokens(next, eos, prompt, maxTokens)
    {
      var cache := new TargetCache();
      var rows, tapped := cache.Forward(next, prompt, 0);
      var token := rows[|prompt| - 1];
      assert [] + prompt == prompt && prompt[..|prompt|] == prompt;
      var out := [token];
      var pos := |prompt|;
      assert prompt + out == Extend(next, prompt, 1) by { assert Extend(next, prompt, 0) == prompt; }
      assert (prompt + out)[..pos] == prompt;
      while |out| < maxTokens && !IsEos(eos, token)
        invariant fresh(cache) && Decoded(prompt, out, maxTokens)
        invariant token == out[|out| - 1] && pos == |prompt| + |out| - 1
        invariant cache.tokens == (prompt + out)[..pos]
        decreases maxTokens - |out|
      {
        DecodedStep(prompt, out, maxTokens);
        assert (prompt + out)[..pos] + [token][..1] == prompt + out;
        rows, tapped := cache.Forward(next, [token], pos);
        token := rows[0];
        out := out + [token];
        pos := pos + 1;
        assert (prompt + out)[..pos] == cache.tokens;
      }
      kept := if maxTokens < 0 then [] else if |out| <= maxTokens then out else out[..maxTokens];
      GreedyTokensCharacterised(next, eos, prompt, maxTokens, out);
    }

    /** The tokens are the greedy ones with or without a memo hit; a hit also repeats the first
        measured time, and a miss stores the new one. `began` and `ended` are clock readings. */
    method TargetAlone(prompt: seq<Token>, maxTokens: int, began: real, ended: real)
      returns (result: (seq<Token>, real))
      requires Valid() && prompt != []
      modifies this
      ensures Valid()
      ensures result.0 == GreedyTokens(next, eos, prompt, maxTokens)
      ensures var key := (prompt, maxTokens);
              if key in old(memo) then result == old(memo)[key] && memo == old(memo)
              else result.1 == ended - began && memo == old(memo)[key := result]
    {
      var key := (prompt, maxTokens);
      if key in memo {
        return memo[key];
      }
      var kept := Decode(prompt, maxTokens);
      result := (kept, ended - began);
      memo := memo[key := result];
    }
  }
}
