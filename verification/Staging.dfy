/** The resumable staging loop as a state machine: a working directory that only commits make
    durable, a scratch disk, and crashes at any step. Shards are known by their place in the sorted
    list of shard names. */
module Staging {
  type Bytes = seq<int>

  const COMMIT_EVERY := 4

  /** The finished files (final names), the half-written ones, and the rewritten index. */
  datatype Disk = Disk(finals: map<nat, Bytes>, tmps: map<nat, Bytes>, index: Bytes)

  /** Where the running stage is. A shard is skipped, or downloaded, written to its temporary name,
      renamed, and its download removed; the index is written after the last one. */
  datatype Phase =
    | Idle
    | AtShard(i: nat)
    | Downloaded(i: nat)
    | Writing(i: nat)
    | Replaced(i: nat)
    | Removed(i: nat)
    | WritingIndex
    | Done

  /** `left` and `warm` are history: downloads that an exception left behind after their rename, and
      exceptions survived since the container started. */
  datatype State = State(working: Disk, durable: Disk, scratch: set<nat>, phase: Phase,
                         processed: nat, skipped: nat, left: set<nat>, warm: nat)

  /** What the stage writes: the transform of each shard, and the index over the finished shards. */
  datatype Plan = Plan(shards: nat, target: nat -> Bytes, indexOf: map<nat, Bytes> -> Bytes)
  {
    /** No transformed shard is an empty file: every safetensors file has a header. */
    ghost predicate Valid()
    {
      forall i: nat :: i < shards ==> target(i) != []
    }

    /** The first `k` shards, completely transformed. */
    function Finished(k: nat): (finals: map<nat, Bytes>)
    {
      map i: nat | i < k :: target(i)
    }
  }

  const EmptyDisk := Disk(map[], map[], [])

  predicate Init(s: State)
  {
    s == State(EmptyDisk, EmptyDisk, {}, Idle, 0, 0, {}, 0)
  }

  // ---- steps ------------------------------------------------------------------------------

  /** The existence test of the loop: a file under its final name that is not empty. */
  predicate Staged(d: Disk, i: nat)
  {
    i in d.finals && |d.finals[i]| > 0
  }

  predicate Start(p: Plan, s: State, s': State)
  {
    && (s.phase == Idle || s.phase == Done)
    && s' == s.(phase := AtShard(0), processed := 0, skipped := 0)
  }

  predicate Skip(p: Plan, s: State, s': State)
  {
    && s.phase.AtShard? && s.phase.i < p.shards && Staged(s.working, s.phase.i)
    && s' == s.(phase := AtShard(s.phase.i + 1), skipped := s.skipped + 1)
  }

  predicate Download(p: Plan, s: State, s': State)
  {
    && s.phase.AtShard? && s.phase.i < p.shards && !Staged(s.working, s.phase.i)
    && s' == s.(phase := Downloaded(s.phase.i), scratch := s.scratch + {s.phase.i})
  }

  /** Any part of the transform may have reached the temporary file. */
  predicate Write(p: Plan, s: State, s': State)
  {
    && (s.phase.Downloaded? || s.phase.Writing?)
    && exists n: nat :: n <= |p.target(s.phase.i)| && s' == WriteUpTo(p, s, n)
  }

  function WriteUpTo(p: Plan, s: State, n: nat): (s': State)
    requires (s.phase.Downloaded? || s.phase.Writing?) && n <= |p.target(s.phase.i)|
  {
    s.(phase := Writing(s.phase.i),
       working := s.working.(tmps := s.working.tmps[s.phase.i := p.target(s.phase.i)[..n]]))
  }

  /** The rename happens once the whole transform is in the temporary file, and is atomic. */
  predicate Replace(p: Plan, s: State, s': State)
  {
    && s.phase.Writing? && s.phase.i in s.working.tmps && s.working.tmps[s.phase.i] == p.target(s.phase.i)
    && s' == s.(phase := Replaced(s.phase.i),
                working := s.working.(finals := s.working.finals[s.phase.i := s.working.tmps[s.phase.i]],
                                      tmps := s.working.tmps - {s.phase.i}))
  }

  predicate Remove(p: Plan, s: State, s': State)
  {
    && s.phase.Replaced?
    && s' == s.(phase := Removed(s.phase.i), scratch := s.scratch - {s.phase.i}, processed := s.processed + 1)
  }

  /** Every fourth shard of a run is followed by a commit. */
  predicate Advance(p: Plan, s: State, s': State)
  {
    && s.phase.Removed?
    && s' == s.(phase := AtShard(s.phase.i + 1),
                durable := if s.processed % COMMIT_EVERY == 0 then s.working else s.durable)
  }

  /** The index is rewritten in place: any part of it may be on disk. */
  predicate WriteIndex(p: Plan, s: State, s': State)
  {
    && (s.phase == AtShard(p.shards) || s.phase.WritingIndex?)
    && exists n: nat :: n <= |p.indexOf(s.working.finals)| && s' == IndexUpTo(p, s, n)
  }

  function IndexUpTo(p: Plan, s: State, n: nat): (s': State)
    requires n <= |p.indexOf(s.working.finals)|
  {
    s.(phase := WritingIndex, working := s.working.(index := p.indexOf(s.working.finals)[..n]))
  }

  predicate Finish(p: Plan, s: State, s': State)
  {
    && s.phase.WritingIndex? && s.working.index == p.indexOf(s.working.finals)
    && s' == s.(phase := Done, durable := s.working)
  }

  /** What one run of the stage does by itself. */
  predicate RunStep(p: Plan, s: State, s': State)
  {
    || Skip(p, s, s') || Download(p, s, s') || Write(p, s, s') || Replace(p, s, s') || Remove(p, s, s')
    || Advance(p, s, s') || WriteIndex(p, s, s') || Finish(p, s, s')
  }

  /** The volume may save the working directory at any time. */
  predicate BackgroundCommit(s: State, s': State)
  {
    s' == s.(durable := s.working)
  }

  /** The container dies: what was not committed is gone, and so is the scratch disk. */
  predicate ColdCrash(s: State, s': State)
  {
    s' == s.(phase := Idle, working := s.durable, scratch := {}, left := {}, warm := 0)
  }

  /** The run fails but its container is used again: both disks stay as they are. */
  predicate WarmCrash(s: State, s': State)
  {
    && s.phase != Idle && s.phase != Done
    && s' == s.(phase := Idle, left := if s.phase.Replaced? then s.left + {s.phase.i} else s.left, warm := s.warm + 1)
  }

  predicate Step(p: Plan, s: State, s': State)
  {
    Start(p, s, s') || RunStep(p, s, s') || BackgroundCommit(s, s') || ColdCrash(s, s') || WarmCrash(s, s')
  }

  ghost predicate History(p: Plan, states: seq<State>)
  {
    && states != [] && Init(states[0])
    && forall k :: 0 <= k < |states| - 1 ==> Step(p, states[k], states[k + 1])
  }

  // ---- the invariant ----------------------------------------------------------------------

  /** The finished files are a prefix of the shard list, each one the complete transform. */
  ghost predicate DiskSound(p: Plan, d: Disk)
  {
    |d.finals| <= p.shards && d.finals == p.Finished(|d.finals|)
  }

  /** How far the phase says the run has come. */
  ghost predicate PhaseSound(p: Plan, s: State)
  {
    var f := |s.working.finals|;
    match s.phase
    case Idle => true
    case AtShard(i) => i <= f && s.processed + s.skipped == i && (s.processed > 0 ==> i == f)
    case Downloaded(i) => i == f < p.shards && s.processed + s.skipped == i
    case Writing(i) => i == f < p.shards && s.processed + s.skipped == i
    case Replaced(i) => i + 1 == f && s.processed + s.skipped == i
    case Removed(i) => i + 1 == f && s.processed + s.skipped == f && s.processed > 0
    case WritingIndex => f == p.shards && s.processed + s.skipped == f
    case Done =>
      (&& f == p.shards && s.processed + s.skipped == f && s.durable.finals == s.working.finals
       && s.durable.index == s.working.index == p.indexOf(s.working.finals))
  }

  /** What scratch holds: leftovers of renamed shards, the shard that is being worked on, and
      perhaps the next one, if an exception interrupted it. */
  ghost predicate ScratchSound(p: Plan, s: State)
  {
    var f := |s.working.finals|;
    && (forall j :: j in s.left ==> j < f && j in s.scratch)
    && match s.phase
       case Downloaded(i) => s.scratch == s.left + {i}
       case Writing(i) => s.scratch == s.left + {i}
       case Replaced(i) => s.scratch == s.left + {i} && i !in s.left
       case _ => s.scratch == s.left || s.scratch == s.left + {f}
  }

  /** How many finished shards of this run may still be uncommitted. */
  function Pending(s: State): (n: nat)
  {
    match s.phase
    case AtShard(_) => s.processed % COMMIT_EVERY
    case Downloaded(_) => s.processed % COMMIT_EVERY
    case Writing(_) => s.processed % COMMIT_EVERY
    case Replaced(_) => s.processed % COMMIT_EVERY + 1
    case Removed(_) => (s.processed + COMMIT_EVERY - 1) % COMMIT_EVERY + 1
    case WritingIndex => s.processed % COMMIT_EVERY
    case Idle => 0
    case Done => 0
  }

  ghost predicate CommitsSound(p: Plan, s: State)
  {
    && |s.durable.finals| <= |s.working.finals|
    && |s.working.finals| - |s.durable.finals| <= COMMIT_EVERY * s.warm + Pending(s)
  }

  ghost predicate Inv(p: Plan, s: State)
  {
    && DiskSound(p, s.working) && DiskSound(p, s.durable)
    && PhaseSound(p, s) && ScratchSound(p, s) && CommitsSound(p, s)
  }

  lemma {:induction false} FinishedSize(p: Plan, k: nat)
    ensures |p.Finished(k)| == k
  {
    if k > 0 {
      FinishedSize(p, k - 1);
      assert p.Finished(k) == p.Finished(k - 1)[k - 1 := p.target(k - 1)];
    }
  }

  /** The loop's test finds exactly the finished prefix. */
  lemma StagedIsPrefix(p: Plan, d: Disk, i: nat)
    requires p.Valid() && DiskSound(p, d) && i < p.shards
    ensures Staged(d, i) <==> i < |d.finals|
  {
  }

  lemma ReplaceKeepsInv(p: Plan, s: State, s': State)
    requires p.Valid() && Inv(p, s) && Replace(p, s, s')
    ensures Inv(p, s')
  {
    hide Plan.Finished, Staged;
    FinishedGrows(p, s.phase.i);
  }

  lemma FinishedGrows(p: Plan, i: nat)
    ensures p.Finished(i + 1) == p.Finished(i)[i := p.target(i)] && |p.Finished(i + 1)| == i + 1
  {
    FinishedSize(p, i + 1);
  }

  lemma LoopHeadKeepsInv(p: Plan, s: State, s': State)
    requires p.Valid() && Inv(p, s) && (Skip(p, s, s') || Download(p, s, s'))
    ensures Inv(p, s')
  {
    StagedIsPrefix(p, s.working, s.phase.i);
    hide Plan.Finished;
  }

  lemma WriteKeepsInv(p: Plan, s: State, s': State)
    requires p.Valid() && Inv(p, s) && (Write(p, s, s') || WriteIndex(p, s, s'))
    ensures Inv(p, s')
  {
    hide Plan.Finished, Staged;
  }

  lemma TidyKeepsInv(p: Plan, s: State, s': State)
    requires p.Valid() && Inv(p, s) && (Remove(p, s, s') || Advance(p, s, s'))
    ensures Inv(p, s')
  {
    hide Plan.Finished, Staged;
  }

  lemma FinishKeepsInv(p: Plan, s: State, s': State)
    requires p.Valid() && Inv(p, s) && Finish(p, s, s')
    ensures Inv(p, s')
  {
    hide Plan.Finished, Staged;
  }

  lemma RunStepKeepsInv(p: Plan, s: State, s': State)
    requires p.Valid() && Inv(p, s) && RunStep(p, s, s')
    ensures Inv(p, s')
  {
    hide Inv, Skip, Download, Write, Replace, Remove, Advance, WriteIndex, Finish, Plan.Valid;
    if Replace(p, s, s') {
      ReplaceKeepsInv(p, s, s');
    } else if Skip(p, s, s') || Download(p, s, s') {
      LoopHeadKeepsInv(p, s, s');
    } else if Write(p, s, s') || WriteIndex(p, s, s') {
      WriteKeepsInv(p, s, s');
    } else if Finish(p, s, s') {
      FinishKeepsInv(p, s, s');
    } else {
      TidyKeepsInv(p, s, s');
    }
  }

  lemma StepKeepsInv(p: Plan, s: State, s': State)
    requires p.Valid() && Inv(p, s) && Step(p, s, s')
    ensures Inv(p, s')
  {
    hide RunStep, Plan.Finished, Staged;
    if RunStep(p, s, s') {
      RunStepKeepsInv(p, s, s');
    }
  }

  /** Every state of every history, with crashes anywhere, is sound. */
  lemma {:induction false} HistoriesAreSound(p: Plan, states: seq<State>, k: nat)
    requires p.Valid() && History(p, states) && k < |states|
    ensures Inv(p, states[k])
    decreases k
  {
    if k == 0 {
      assert p.Finished(0) == map[];
    } else {
      HistoriesAreSound(p, states, k - 1);
      StepKeepsInv(p, states[k - 1], states[k]);
    }
  }

  // ---- what every run keeps ---------------------------------------------------------------

  /** A file under its final name is the complete transform of its source, whatever happened. */
  lemma FinalNamesAreComplete(p: Plan, states: seq<State>, k: nat, i: nat)
    requires p.Valid() && History(p, states) && k < |states|
    ensures i in states[k].working.finals ==> i < p.shards && states[k].working.finals[i] == p.target(i)
    ensures i in states[k].durable.finals ==> i < p.shards && states[k].durable.finals[i] == p.target(i)
  {
    HistoriesAreSound(p, states, k);
  }

  /** A finished run has committed every shard and the index over them; the result does not depend
      on the crashes before it, and every shard was either processed or skipped. */
  lemma FinishedRunIsComplete(p: Plan, states: seq<State>, k: nat)
    requires p.Valid() && History(p, states) && k < |states| && states[k].phase == Done
    ensures var s := states[k];
            && s.durable.finals == s.working.finals == p.Finished(p.shards)
            && s.durable.index == p.indexOf(p.Finished(p.shards))
            && s.processed + s.skipped == p.shards
  {
    HistoriesAreSound(p, states, k);
  }

  /** Scratch never holds more than one shard beyond those that an exception stranded between the
      rename and the removal. */
  lemma ScratchBound(p: Plan, states: seq<State>, k: nat)
    requires p.Valid() && History(p, states) && k < |states|
    ensures states[k].left <= states[k].scratch && |states[k].scratch| <= |states[k].left| + 1
  {
    HistoriesAreSound(p, states, k);
    var s := states[k];
    SetPlusOne(s.left, s.scratch, match s.phase
                                  case Downloaded(i) => i
                                  case Writing(i) => i
                                  case Replaced(i) => i
                                  case _ => |s.working.finals|);
  }

  /** A shard has been downloaded and is not removed yet. */
  predicate Working(s: State)
  {
    s.phase.Downloaded? || s.phase.Writing? || s.phase.Replaced?
  }

  /** While a shard is worked on, scratch holds it and what exceptions stranded, so it is within one
      shard exactly if nothing was stranded. */
  lemma ScratchExactly(p: Plan, states: seq<State>, k: nat)
    requires p.Valid() && History(p, states) && k < |states| && Working(states[k])
    ensures states[k].scratch == states[k].left + {states[k].phase.i} && |states[k].scratch| == |states[k].left| + 1
    ensures |states[k].scratch| <= 1 <==> states[k].left == {}
  {
    HistoriesAreSound(p, states, k);
    var s := states[k];
    assert s.phase.i !in s.left;
    assert |s.left| == 0 <==> s.left == {};
  }

  /** Only a download adds to scratch. */
  lemma ScratchGrowsByDownload(p: Plan, s: State, s': State)
    requires Step(p, s, s') && !Working(s')
    ensures s'.scratch <= s.scratch
  {
  }

  /** A history keeps scratch within one shard throughout if and only if no run works on a shard while
      a stranded download is left. */
  lemma ScratchWithinOneExactly(p: Plan, states: seq<State>)
    requires p.Valid() && History(p, states)
    ensures (forall k :: 0 <= k < |states| ==> |states[k].scratch| <= 1)
       <==> (forall k :: 0 <= k < |states| && Working(states[k]) ==> states[k].left == {})
  {
    if forall k :: 0 <= k < |states| && Working(states[k]) ==> states[k].left == {} {
      forall k | 0 <= k < |states| ensures |states[k].scratch| <= 1 {
        WithinOne(p, states, k);
      }
    } else {
      var k :| 0 <= k < |states| && Working(states[k]) && states[k].left != {};
      ScratchExactly(p, states, k);
    }
  }

  lemma {:induction false} WithinOne(p: Plan, states: seq<State>, k: nat)
    requires p.Valid() && History(p, states) && k < |states|
    requires forall j :: 0 <= j < |states| && Working(states[j]) ==> states[j].left == {}
    ensures |states[k].scratch| <= 1
    decreases k
  {
    if Working(states[k]) {
      ScratchExactly(p, states, k);
    } else if k > 0 {
      WithinOne(p, states, k - 1);
      ScratchGrowsByDownload(p, states[k - 1], states[k]);
      SubsetSize(states[k].scratch, states[k - 1].scratch);
    }
  }

  lemma SubsetSize(a: set<nat>, b: set<nat>)
    requires a <= b
    ensures |a| <= |b|
  {
    assert b == a + (b - a);
  }

  lemma SetPlusOne(a: set<nat>, b: set<nat>, x: nat)
    requires b == a || b == a + {x}
    ensures |b| <= |a| + 1
  {
    if x !in a { assert |a + {x}| == |a| + 1; } else { assert a + {x} == a; }
  }

  /** Losing the container loses the uncommitted shards: at most four when no exception was survived
      before, and up to four more for each one that was. */
  lemma LossBound(p: Plan, states: seq<State>, k: nat)
    requires p.Valid() && History(p, states) && k < |states|
    ensures |states[k].durable.finals| <= |states[k].working.finals|
    ensures |states[k].working.finals| - |states[k].durable.finals| <= 4 * (states[k].warm + 1)
  {
    HistoriesAreSound(p, states, k);
  }

  /** A run, its restarts and container losses: no commit but its own, and no survived exception. */
  predicate PlainStep(p: Plan, s: State, s': State)
  {
    Start(p, s, s') || RunStep(p, s, s') || ColdCrash(s, s')
  }

  ghost predicate PlainHistory(p: Plan, states: seq<State>)
  {
    && states != [] && Init(states[0])
    && forall k :: 0 <= k < |states| - 1 ==> PlainStep(p, states[k], states[k + 1])
  }

  lemma PlainIsHistory(p: Plan, states: seq<State>)
    requires PlainHistory(p, states)
    ensures History(p, states)
  {
    forall k | 0 <= k < |states| - 1 ensures Step(p, states[k], states[k + 1]) {
      assert PlainStep(p, states[k], states[k + 1]);
    }
  }

  /** In such a history the uncommitted shards are exactly those that the phase and the counter tell,
      so losing the container costs finished shards if and only if that number is not zero. */
  lemma {:induction false} LossExactly(p: Plan, states: seq<State>, k: nat)
    requires p.Valid() && PlainHistory(p, states) && k < |states|
    ensures |states[k].working.finals| == |states[k].durable.finals| + Pending(states[k])
    ensures forall after :: ColdCrash(states[k], after) ==>
              (after.working.finals == states[k].working.finals <==> Pending(states[k]) == 0)
    decreases k
  {
    PlainIsHistory(p, states);
    HistoriesAreSound(p, states, k);
    if k > 0 {
      LossExactly(p, states, k - 1);
      HistoriesAreSound(p, states, k - 1);
      LossStep(p, states[k - 1], states[k]);
    }
    SameSizeSameDisk(p, states[k]);
  }

  lemma SameSizeSameDisk(p: Plan, s: State)
    requires DiskSound(p, s.working) && DiskSound(p, s.durable)
    ensures s.durable.finals == s.working.finals <==> |s.durable.finals| == |s.working.finals|
  {
  }

  lemma LossStep(p: Plan, s: State, s': State)
    requires p.Valid() && Inv(p, s) && Inv(p, s') && PlainStep(p, s, s')
    requires |s.working.finals| == |s.durable.finals| + Pending(s)
    ensures |s'.working.finals| == |s'.durable.finals| + Pending(s')
  {
    hide ScratchSound, CommitsSound, Plan.Valid;
    if Skip(p, s, s') {
      StagedIsPrefix(p, s.working, s.phase.i);
    } else if Replace(p, s, s') {
      ReplaceCounts(p, s, s');
    } else if Remove(p, s, s') || Advance(p, s, s') || Finish(p, s, s') {
      TidyCounts(p, s, s');
    }
  }

  lemma ReplaceCounts(p: Plan, s: State, s': State)
    requires Inv(p, s) && Inv(p, s') && Replace(p, s, s') && |s.working.finals| == |s.durable.finals| + Pending(s)
    ensures |s'.working.finals| == |s'.durable.finals| + Pending(s')
  {
    hide Plan.Finished;
  }

  lemma TidyCounts(p: Plan, s: State, s': State)
    requires Remove(p, s, s') || Advance(p, s, s') || Finish(p, s, s')
    requires |s.working.finals| == |s.durable.finals| + Pending(s)
    ensures |s'.working.finals| == |s'.durable.finals| + Pending(s')
  {
    hide Plan.Finished;
  }

  /** Steps after which the durable files are the working ones. */
  predicate Saves(p: Plan, s: State, s': State)
  {
    || BackgroundCommit(s, s') || ColdCrash(s, s') || Finish(p, s, s')
    || (Advance(p, s, s') && s.processed % 4 == 0)
  }

  /** Shards renamed since the last such step, counted along the history. */
  function Exposed(p: Plan, states: seq<State>, k: nat): (n: nat)
    requires k < |states|
  {
    if k == 0 || Saves(p, states[k - 1], states[k]) then 0
    else Exposed(p, states, k - 1) + if Replace(p, states[k - 1], states[k]) then 1 else 0
  }

  /** In every history, background commits and survived exceptions included, exactly those shards are
      uncommitted, so losing the container costs finished shards if and only if there are any. */
  lemma {:induction false} LossInEveryHistory(p: Plan, states: seq<State>, k: nat)
    requires p.Valid() && History(p, states) && k < |states|
    ensures |states[k].working.finals| == |states[k].durable.finals| + Exposed(p, states, k)
    ensures forall after :: ColdCrash(states[k], after) ==>
              (after.working.finals == states[k].working.finals <==> Exposed(p, states, k) == 0)
    decreases k
  {
    HistoriesAreSound(p, states, k);
    if k > 0 {
      LossInEveryHistory(p, states, k - 1);
      HistoriesAreSound(p, states, k - 1);
      ExposedStep(p, states[k - 1], states[k]);
      hide Inv, Saves, Replace, Step;
    }
    SameSizeSameDisk(p, states[k]);
  }

  lemma ExposedStep(p: Plan, s: State, s': State)
    requires Inv(p, s) && Inv(p, s') && Step(p, s, s')
    ensures Saves(p, s, s') ==> s'.durable.finals == s'.working.finals
    ensures !Saves(p, s, s') ==> s'.durable.finals == s.durable.finals
    ensures !Saves(p, s, s') ==>
      |s'.working.finals| == |s.working.finals| + if Replace(p, s, s') then 1 else 0
  {
    hide Plan.Finished, ScratchSound, CommitsSound, Staged;
  }

  // ---- progress ---------------------------------------------------------------------------

  /** Steps that a run still has to take if it is left alone and every write goes through at once. */
  function Remaining(p: Plan, s: State): (n: int)
  {
    match s.phase
    case Idle => 7 * p.shards + 4
    case AtShard(i) => 7 * (p.shards - i) + 3
    case Downloaded(i) => 7 * (p.shards - i) + 2
    case Writing(i) => 7 * (p.shards - i) + if i in s.working.tmps && s.working.tmps[i] == p.target(i) then 0 else 1
    case Replaced(i) => 7 * (p.shards - i) - 1
    case Removed(i) => 7 * (p.shards - i) - 2
    case WritingIndex => if s.working.index == p.indexOf(s.working.finals) then 1 else 2
    case Done => 0
  }

  /** From any sound state, however it came about, a run left alone finishes. */
  lemma {:induction false} RunFinishes(p: Plan, s: State) returns (states: seq<State>)
    requires p.Valid() && Inv(p, s)
    ensures states != [] && states[0] == s && states[|states| - 1].phase == Done
    ensures |states| <= Remaining(p, s) + 1 <= 7 * p.shards + 5
    ensures forall k :: 0 <= k < |states| - 1 ==>
        Start(p, states[k], states[k + 1]) || RunStep(p, states[k], states[k + 1])
    decreases Remaining(p, s)
  {
    if s.phase == Done {
      states := [s];
    } else {
      var next := NextStep(p, s);
      var rest := RunFinishes(p, next);
      states := [s] + rest;
    }
  }

  /** The step that a lone run takes next. */
  function NextState(p: Plan, s: State): (s': State)
    requires s.phase != Done
  {
    match s.phase
    case Idle => s.(phase := AtShard(0), processed := 0, skipped := 0)
    case AtShard(i) =>
      if i >= p.shards then IndexUpTo(p, s, |p.indexOf(s.working.finals)|)
      else if Staged(s.working, i) then s.(phase := AtShard(i + 1), skipped := s.skipped + 1)
      else s.(phase := Downloaded(i), scratch := s.scratch + {i})
    case Downloaded(i) => WriteUpTo(p, s, |p.target(i)|)
    case Writing(i) =>
      if i in s.working.tmps && s.working.tmps[i] == p.target(i) then
        s.(phase := Replaced(i),
           working := s.working.(finals := s.working.finals[i := s.working.tmps[i]], tmps := s.working.tmps - {i}))
      else WriteUpTo(p, s, |p.target(i)|)
    case Replaced(i) => s.(phase := Removed(i), scratch := s.scratch - {i}, processed := s.processed + 1)
    case Removed(i) => s.(phase := AtShard(i + 1), durable := if s.processed % COMMIT_EVERY == 0 then s.working
                          else s.durable)
    case WritingIndex =>
      if s.working.index == p.indexOf(s.working.finals) then s.(phase := Done, durable := s.working)
      else IndexUpTo(p, s, |p.indexOf(s.working.finals)|)
  }

  lemma NextIsStep(p: Plan, s: State)
    requires PhaseSound(p, s) && s.phase != Done && |s.working.finals| <= p.shards
    ensures Start(p, s, NextState(p, s)) || RunStep(p, s, NextState(p, s))
  {
    var s' := NextState(p, s);
    match s.phase
    case AtShard(i) => if i == p.shards { assert WriteIndex(p, s, s'); }
    case Downloaded(i) => assert Write(p, s, s');
    case Writing(i) =>
      if !(i in s.working.tmps && s.working.tmps[i] == p.target(i)) { assert Write(p, s, s'); }
    case WritingIndex =>
      if s.working.index != p.indexOf(s.working.finals) { assert WriteIndex(p, s, s'); }
    case _ =>
  }

  lemma NextStep(p: Plan, s: State) returns (s': State)
    requires p.Valid() && Inv(p, s) && s.phase != Done
    ensures s' == NextState(p, s) && (Start(p, s, s') || RunStep(p, s, s')) && Inv(p, s')
    ensures 0 <= Remaining(p, s') < Remaining(p, s)
  {
    s' := NextState(p, s);
    NextIsStep(p, s);
    NextIsNearer(p, s);
    hide RunStep, Start, Inv, NextState, Remaining;
    StepKeepsInv(p, s, s');
  }

  lemma NextIsNearer(p: Plan, s: State)
    requires PhaseSound(p, s) && s.phase != Done && |s.working.finals| <= p.shards
    ensures 0 <= Remaining(p, NextState(p, s)) < Remaining(p, s)
  {
    if s.phase.Downloaded? || s.phase.Writing? {
      WriteIsNearer(p, s);
    } else if s.phase.WritingIndex? || s.phase == AtShard(p.shards) {
      IndexIsNearer(p, s);
    } else {
      hide WriteUpTo, IndexUpTo, Staged;
    }
  }

  lemma WriteIsNearer(p: Plan, s: State)
    requires (s.phase.Downloaded? || s.phase.Writing?) && s.phase.i < p.shards
    ensures 0 <= Remaining(p, NextState(p, s)) < Remaining(p, s)
  {
    hide Staged, IndexUpTo;
  }

  lemma IndexIsNearer(p: Plan, s: State)
    requires s.phase.WritingIndex? || s.phase == AtShard(p.shards)
    ensures 0 <= Remaining(p, NextState(p, s)) < Remaining(p, s)
  {
    hide Staged, WriteUpTo;
  }

  // ---- where the bounds are met -----------------------------------------------------------

  function Last(states: seq<State>): (s: State)
    requires states != []
  {
    states[|states| - 1]
  }

  lemma Extend(p: Plan, states: seq<State>, s: State) returns (longer: seq<State>)
    requires History(p, states) && Step(p, Last(states), s)
    ensures longer != [] && History(p, longer) && Last(longer) == s && longer == states + [s]
  {
    longer := states + [s];
    forall k | 0 <= k < |longer| - 1 ensures Step(p, longer[k], longer[k + 1]) {
      if k < |states| - 1 { assert Step(p, states[k], states[k + 1]); }
    }
  }

  /** Downloaded, written and renamed: three steps on from the loop head at an unstaged shard. */
  function AfterRename(p: Plan, s: State): (s': State)
    requires s.phase.AtShard? && s.phase.i < p.shards
  {
    var i := s.phase.i;
    s.(phase := Replaced(i), scratch := s.scratch + {i},
       working := s.working.(finals := s.working.finals[i := p.target(i)],
                             tmps := s.working.tmps[i := p.target(i)] - {i}))
  }

  lemma ThreeSteps(p: Plan, s: State) returns (a: State, b: State)
    requires s.phase.AtShard? && s.phase.i < p.shards && !Staged(s.working, s.phase.i)
    ensures Step(p, s, a) && Step(p, a, b) && Step(p, b, AfterRename(p, s))
  {
    var i := s.phase.i;
    a := s.(phase := Downloaded(i), scratch := s.scratch + {i});
    b := WriteUpTo(p, a, |p.target(i)|);
    assert p.target(i)[..|p.target(i)|] == p.target(i);
    assert Download(p, s, a) && Write(p, a, b) && Replace(p, b, AfterRename(p, s));
  }

  /** A file under its final name is skipped exactly if there is something in it; a missing or an empty one is made
      again, and is complete after the rename. */
  lemma EmptyFileIsRedone(p: Plan, s: State) returns (a: State, b: State)
    requires s.phase.AtShard? && s.phase.i < p.shards
    ensures var full := s.phase.i in s.working.finals && s.working.finals[s.phase.i] != [];
            && ((exists s' :: Skip(p, s, s')) <==> full)
            && (!full ==> && Step(p, s, a) && Step(p, a, b) && Step(p, b, AfterRename(p, s))
                          && AfterRename(p, s).working.finals == s.working.finals[s.phase.i := p.target(s.phase.i)])
  {
    a, b := s, s;
    if Staged(s.working, s.phase.i) {
      assert Skip(p, s, s.(phase := AtShard(s.phase.i + 1), skipped := s.skipped + 1));
    } else {
      a, b := ThreeSteps(p, s);
    }
  }

  /** Takes shard `i` of a plain run as far as the rename. */
  lemma UpToReplace(p: Plan, states: seq<State>) returns (longer: seq<State>)
    requires p.Valid() && History(p, states) && Inv(p, Last(states)) && Last(states).phase.AtShard?
    requires Last(states).phase.i < p.shards
    requires |Last(states).working.finals| == Last(states).phase.i
    ensures History(p, longer) && Last(longer) == AfterRename(p, Last(states)) && Inv(p, Last(longer))
    ensures Last(longer).working.finals == p.Finished(Last(states).phase.i + 1)
  {
    var s := Last(states);
    StagedIsPrefix(p, s.working, s.phase.i);
    var a, b := ThreeSteps(p, s);
    var c := AfterRename(p, s);
    hide History, Inv, AfterRename, Step, Staged, Plan.Finished, Plan.Valid;
    StepKeepsInv(p, s, a);
    StepKeepsInv(p, a, b);
    StepKeepsInv(p, b, c);
    longer := Extend(p, states, a);
    longer := Extend(p, longer, b);
    longer := Extend(p, longer, c);
    RenamedFinals(p, s);
  }

  lemma RenamedFinals(p: Plan, s: State)
    requires Inv(p, s) && s.phase.AtShard? && s.phase.i < p.shards && |s.working.finals| == s.phase.i
    ensures AfterRename(p, s).working.finals == p.Finished(s.phase.i + 1)
  {
    hide Plan.Finished;
    FinishedGrows(p, s.phase.i);
  }

  /** An uninterrupted run that has processed its first `i` < 4 shards and committed none of them. */
  ghost predicate Uncommitted(p: Plan, s: State, i: nat)
    requires i <= p.shards
  {
    && s.phase == AtShard(i) && s.working.finals == p.Finished(i) && s.durable == EmptyDisk
    && s.processed == i && s.skipped == s.warm == 0 && s.scratch == s.left == {}
  }

  lemma {:induction false} PlainRun(p: Plan, i: nat) returns (states: seq<State>)
    requires p.Valid() && i < COMMIT_EVERY && i <= p.shards
    ensures History(p, states) && Inv(p, Last(states)) && Uncommitted(p, Last(states), i)
  {
    if i == 0 {
      FinishedSize(p, 0);
      states := FreshRun(p);
    } else {
      hide History, Inv, Uncommitted;
      states := PlainRun(p, i - 1);
      states := OneMoreShard(p, states, i - 1);
    }
  }

  lemma OneMoreShard(p: Plan, states: seq<State>, i: nat) returns (longer: seq<State>)
    requires p.Valid() && i + 1 < COMMIT_EVERY && i < p.shards
    requires History(p, states) && Inv(p, Last(states)) && Uncommitted(p, Last(states), i)
    ensures History(p, longer) && Inv(p, Last(longer)) && Uncommitted(p, Last(longer), i + 1)
  {
    hide History, Inv;
    FinishedSize(p, i);
    longer := UpToReplace(p, states);
    longer := CloseShard(p, longer);
  }

  /** Removes the download of a renamed shard and moves on, when no commit is due. */
  lemma CloseShard(p: Plan, states: seq<State>) returns (longer: seq<State>)
    requires p.Valid() && History(p, states) && Inv(p, Last(states)) && Last(states).phase.Replaced?
    requires (Last(states).processed + 1) % COMMIT_EVERY != 0
    ensures History(p, longer) && Inv(p, Last(longer))
    ensures var s := Last(states);
            Last(longer) == s.(phase := AtShard(s.phase.i + 1), scratch := s.scratch - {s.phase.i},
                               processed := s.processed + 1)
  {
    var s := Last(states);
    hide History, Inv;
    var removed := s.(phase := Removed(s.phase.i), scratch := s.scratch - {s.phase.i}, processed := s.processed + 1);
    var ahead := removed.(phase := AtShard(s.phase.i + 1));
    assert Remove(p, s, removed) && Advance(p, removed, ahead);
    StepKeepsInv(p, s, removed);
    StepKeepsInv(p, removed, ahead);
    longer := Extend(p, states, removed);
    longer := Extend(p, longer, ahead);
  }

  lemma FreshRun(p: Plan) returns (states: seq<State>)
    requires p.Valid()
    ensures History(p, states) && Inv(p, Last(states))
    ensures Last(states) == State(EmptyDisk, EmptyDisk, {}, AtShard(0), 0, 0, {}, 0)
  {
    var s := State(EmptyDisk, EmptyDisk, {}, Idle, 0, 0, {}, 0);
    HistoriesAreSound(p, [s], 0);
    states := Extend(p, [s], s.(phase := AtShard(0)));
    HistoriesAreSound(p, states, 1);
  }

  /** A preemption can cost more than the shard in flight: three finished shards vanish with their
      container, because commits come only every fourth shard. */
  lemma PreemptionCostsFinishedShards(p: Plan) returns (states: seq<State>)
    requires p.Valid() && p.shards >= 3
    ensures History(p, states) && |states| >= 2
    ensures var before, after := states[|states| - 2], Last(states);
            ColdCrash(before, after) && before.warm == 0 && before.working.finals == p.Finished(3)
              && after.working.finals == map[]
  {
    states := PlainRun(p, 3);
    var s := Last(states);
    states := Extend(p, states, s.(phase := Idle, working := s.durable, scratch := {}, left := {}, warm := 0));
  }

  /** Four finished shards, none of them committed: the fourth download is gone, the commit has not
      happened. */
  ghost predicate FourPending(p: Plan, s: State)
    requires p.shards >= 4
  {
    && s.phase == Removed(3) && s.processed == 4 && s.warm == 0 && Pending(s) == 4
    && s.working.finals == p.Finished(4) && s.durable == EmptyDisk
  }

  lemma RunToFour(p: Plan) returns (states: seq<State>)
    requires p.Valid() && p.shards >= 4
    ensures History(p, states) && FourPending(p, Last(states))
  {
    states := PlainRun(p, 3);
    FinishedSize(p, 3);
    hide History, Inv;
    states := UpToReplace(p, states);
    states := RemoveLast(p, states);
  }

  /** The bound of four is met: losing the container in that state loses all four. */
  lemma FourShardsLost(p: Plan) returns (states: seq<State>)
    requires p.Valid() && p.shards >= 4
    ensures History(p, states) && |states| >= 2
    ensures var before, after := states[|states| - 2], Last(states);
            ColdCrash(before, after) && FourPending(p, before) && after.working.finals == map[]
  {
    states := RunToFour(p);
    hide History;
    var s := Last(states);
    states := Extend(p, states, s.(phase := Idle, working := s.durable, scratch := {}, left := {}, warm := 0));
  }

  lemma RemoveLast(p: Plan, states: seq<State>) returns (longer: seq<State>)
    requires p.Valid() && History(p, states) && Last(states).phase.Replaced?
    ensures longer != [] && History(p, longer)
    ensures var s := Last(states);
            Last(longer) == s.(phase := Removed(s.phase.i), scratch := s.scratch - {s.phase.i},
                               processed := s.processed + 1)
  {
    var s := Last(states);
    var removed := s.(phase := Removed(s.phase.i), scratch := s.scratch - {s.phase.i}, processed := s.processed + 1);
    assert Remove(p, s, removed);
    longer := Extend(p, states, removed);
  }

  /** Scratch is not bounded to one shard when an exception strikes between the rename and the
      removal and the container is used again: the next run skips that shard and downloads another. */
  lemma StrandedDownload(p: Plan) returns (states: seq<State>)
    requires p.Valid() && p.shards >= 2
    ensures History(p, states) && Last(states).scratch == {0, 1} && Last(states).left == {0} && Last(states).warm == 1
  {
    states := PlainRun(p, 0);
    FinishedSize(p, 0);
    states := UpToReplace(p, states);
    var s := Last(states);
    var failed := s.(phase := Idle, left := s.left + {0}, warm := s.warm + 1);
    StepKeepsInv(p, s, failed);
    states := Extend(p, states, failed);
    states := RetryDownload(p, states);
  }

  lemma RetryDownload(p: Plan, states: seq<State>) returns (longer: seq<State>)
    requires p.Valid() && p.shards >= 2 && History(p, states) && Inv(p, Last(states))
    requires Last(states).phase == Idle && Last(states).working.finals == p.Finished(1)
    ensures History(p, longer) && Last(longer).scratch == Last(states).scratch + {1}
    ensures Last(longer).left == Last(states).left && Last(longer).warm == Last(states).warm
  {
    FinishedSize(p, 1);
    var started := NextStep(p, Last(states));
    longer := Extend(p, states, started);
    StagedIsPrefix(p, started.working, 0);
    var skipped := NextStep(p, started);
    longer := Extend(p, longer, skipped);
    StagedIsPrefix(p, skipped.working, 1);
    var fetched := NextStep(p, skipped);
    longer := Extend(p, longer, fetched);
    hide RunStep, Start, History, Remaining, ScratchSound, CommitsSound;
  }
}
