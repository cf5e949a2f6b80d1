/** The paged attention references: decode, prefill and mixed attention that gather keys and values
    through a block table, and the makers that lay sequences out over pages. */
module PagedAttention {
  import opened Attention
  import opened Blocks
  import opened Vectors

  // ---- the paged cache --------------------------------------------------------------------

  /** Key and value pages by kv head, page and slot; one table row and one length per sequence. */
  datatype Cache = Cache(kPages: seq<seq<seq<Vector>>>, vPages: seq<seq<seq<Vector>>>, tables: seq<seq<nat>>,
                         lengths: seq<int>,
                         kvHeads: nat, numPages: nat, pageSize: nat, maxPages: nat, width: nat)
  {
    ghost predicate Valid()
    {
      && pageSize >= 1 && maxPages >= 1 && kvHeads >= 1
      && PagesShaped(kPages) && PagesShaped(vPages)
      && |tables| == |lengths|
      && forall s :: 0 <= s < |tables| ==> TableShaped(tables[s])
    }

    ghost predicate PagesShaped(pages: seq<seq<seq<Vector>>>)
    {
      |pages| == kvHeads && forall kv :: 0 <= kv < kvHeads ==> HeadShaped(pages[kv])
    }

    ghost predicate HeadShaped(pages: seq<seq<Vector>>)
    {
      |pages| == numPages && forall p :: 0 <= p < numPages ==> |pages[p]| == pageSize && Rows(pages[p], width)
    }

    ghost predicate TableShaped(table: seq<nat>)
    {
      |table| == maxPages && forall pi :: 0 <= pi < maxPages ==> table[pi] < numPages
    }
  }

  /** The pages of one head, one after the other in table order. */
  function Gather(pages: seq<seq<Vector>>, table: seq<nat>): (rows: seq<Vector>)
    requires forall pi :: 0 <= pi < |table| ==> table[pi] < |pages|
  {
    if table == [] then [] else Gather(pages, table[..|table| - 1]) + pages[table[|table| - 1]]
  }

  /** Logical row `p` is slot p % pageSize of the page in table entry p / pageSize. */
  lemma {:induction false} GatherAt(c: Cache, pages: seq<seq<Vector>>, table: seq<nat>)
    requires c.HeadShaped(pages) && c.pageSize >= 1
    requires forall pi :: 0 <= pi < |table| ==> table[pi] < c.numPages
    ensures |Gather(pages, table)| == |table| * c.pageSize && Rows(Gather(pages, table), c.width)
    ensures forall p :: 0 <= p < |table| * c.pageSize ==>
      0 <= p / c.pageSize < |table| && Gather(pages, table)[p] == pages[table[p / c.pageSize]][p % c.pageSize]
    decreases |table|
  {
    if table != [] {
      var n := |table| - 1;
      GatherAt(c, pages, table[..n]);
      var rows := Gather(pages, table);
      assert |table| * c.pageSize == n * c.pageSize + c.pageSize;
      forall p | 0 <= p < |table| * c.pageSize
        ensures 0 <= p / c.pageSize < |table| && rows[p] == pages[table[p / c.pageSize]][p % c.pageSize]
      {
        if p >= n * c.pageSize {
          SlotOfLastPage(p, n, c.pageSize);
        } else {
          assert rows[p] == Gather(pages, table[..n])[p];
        }
      }
    }
  }

  lemma SlotOfLastPage(p: nat, n: nat, size: nat)
    requires size >= 1 && n * size <= p < n * size + size
    ensures p / size == n && p % size == p - n * size
  {
    var d, z: int := p / size - n, size;
    assert d * z == p - n * size - p % size;
    assert d >= 1 ==> d * z >= z;
    assert d <= -1 ==> (0 - d) * z >= z;
  }

  // ---- one output row ---------------------------------------------------------------------

  /** A query row that sees the first `visible` logical rows of sequence `s`. With nothing visible
      the references average over everything the table names. */
  function PagedRow(exp: real -> real, c: Cache, s: nat, kv: nat, q: Vector, visible: int, scale: real): (out: Vector)
    requires PositiveFunction(exp) && c.Valid() && s < |c.tables| && kv < c.kvHeads && |q| == c.width
    ensures |out| == c.width
  {
    GatherAt(c, c.kPages[kv], c.tables[s]);
    GatherAt(c, c.vPages[kv], c.tables[s]);
    var ks, vs := Gather(c.kPages[kv], c.tables[s]), Gather(c.vPages[kv], c.tables[s]);
    assert |ks| >= 1 by { assert c.maxPages * c.pageSize >= 1; }
    if visible < 1 then MaskedAttend(exp, q, ks, vs, scale, 0)
    else
      var n := if visible < |ks| then visible else |ks|;
      Attend(exp, q, ks[..n], vs[..n], scale)
  }

  /** The references' inner body: gather everything, mask, subtract the maximum, combine. */
  method ComputeRow(exp: real -> real, c: Cache, ghost s: nat, ghost kv: nat, kFull: seq<Vector>, vFull: seq<Vector>,
                    q: Vector, visible: int, scale: real)
    returns (out: Vector)
    requires PositiveFunction(exp) && c.Valid() && s < |c.tables| && kv < c.kvHeads && |q| == c.width
    requires kFull == Gather(c.kPages[kv], c.tables[s]) && vFull == Gather(c.vPages[kv], c.tables[s])
    ensures out == PagedRow(exp, c, s, kv, q, visible, scale)
  {
    GatherAt(c, c.kPages[kv], c.tables[s]);
    GatherAt(c, c.vPages[kv], c.tables[s]);
    assert |kFull| >= 1 by { assert c.maxPages * c.pageSize >= 1; }
    ghost var xs := Scores(kFull, q, scale);
    out := MaskedAttend(exp, q, kFull, vFull, scale, visible);
    if visible < 1 {
      assert Mask(xs, visible) == Mask(xs, 0);
    } else {
      ghost var n := if visible < |kFull| then visible else |kFull|;
      assert Mask(xs, visible) == Mask(xs, n);
      MaskedAttendIsAttend(exp, q, kFull, vFull, scale, n);
    }
  }

  function Zeros(width: nat): (v: Vector)
    ensures |v| == width && forall c :: 0 <= c < width ==> v[c] == 0.0
  {
    seq(width, c => 0.0)
  }

  /** Query heads share kv heads in equal consecutive groups. */
  ghost predicate HeadsGrouped(numHeads: nat, kvHeads: nat)
  {
    kvHeads >= 1 && numHeads >= 1 && numHeads % kvHeads == 0
  }

  lemma GroupInRange(numHeads: nat, kvHeads: nat, h: nat)
    requires HeadsGrouped(numHeads, kvHeads) && h < numHeads
    ensures numHeads / kvHeads >= 1 && h / (numHeads / kvHeads) < kvHeads
  {
    var g := numHeads / kvHeads;
    assert numHeads == kvHeads * g;
    assert g >= 1;
    var kv := h / g;
    assert h == g * kv + h % g;
    if kv >= kvHeads { ScaleMonotone(kvHeads, kv, g); }
  }

  function KvOf(numHeads: nat, kvHeads: nat, h: nat): (kv: nat)
    requires HeadsGrouped(numHeads, kvHeads) && h < numHeads
    ensures kv < kvHeads
  {
    GroupInRange(numHeads, kvHeads, h);
    h / (numHeads / kvHeads)
  }

  /** A kv head serves exactly the query heads of one group of consecutive ones. */
  lemma KvOfGroup(numHeads: nat, kvHeads: nat, h: nat, j: nat)
    requires HeadsGrouped(numHeads, kvHeads) && h < numHeads && j < kvHeads
    ensures KvOf(numHeads, kvHeads, h) == j <==> j * (numHeads / kvHeads) <= h < (j + 1) * (numHeads / kvHeads)
  {
    GroupInRange(numHeads, kvHeads, h);
    var g, kv := numHeads / kvHeads, h / (numHeads / kvHeads);
    assert kv * g <= h < kv * g + g;
    ScaleMonotone(kv + 1, j, g);
    ScaleMonotone(j + 1, kv, g);
    assert (kv + 1) * g == kv * g + g && (j + 1) * g == j * g + g;
  }

  // ---- the three references ---------------------------------------------------------------

  ghost predicate Queries2(q: seq<seq<Vector>>, numSeqs: nat, numHeads: nat, width: nat)
  {
    |q| == numSeqs && forall s :: 0 <= s < numSeqs ==> |q[s]| == numHeads && Rows(q[s], width)
  }

  ghost predicate Queries3(q: seq<seq<seq<Vector>>>, numSeqs: nat, rows: nat, numHeads: nat, width: nat)
  {
    |q| == numSeqs && forall s :: 0 <= s < numSeqs ==> Queries2(q[s], rows, numHeads, width)
  }

  /** Decode: one query row per sequence, which sees the whole sequence. */
  method PagedReference(exp: real -> real, c: Cache, q: seq<seq<Vector>>, numHeads: nat, scale: real)
    returns (out: array2<Vector>)
    requires PositiveFunction(exp) && c.Valid() && HeadsGrouped(numHeads, c.kvHeads)
    requires Queries2(q, |c.tables|, numHeads, c.width)
    ensures fresh(out) && out.Length0 == |c.tables| && out.Length1 == numHeads
    ensures forall s, h :: 0 <= s < |c.tables| && 0 <= h < numHeads ==>
      out[s, h] == PagedRow(exp, c, s, KvOf(numHeads, c.kvHeads, h), q[s][h], c.lengths[s], scale)
  {
    hide PagedRow, Gather;
    out := new Vector[|c.tables|, numHeads]((i, j) => Zeros(c.width));
    for s := 0 to |c.tables|
      invariant forall s', h :: 0 <= s' < s && 0 <= h < numHeads ==>
        out[s', h] == PagedRow(exp, c, s', KvOf(numHeads, c.kvHeads, h), q[s'][h], c.lengths[s'], scale)
    {
      var length := c.lengths[s];
      for h := 0 to numHeads
        invariant forall s', h' :: 0 <= s' < s && 0 <= h' < numHeads ==>
          out[s', h'] == PagedRow(exp, c, s', KvOf(numHeads, c.kvHeads, h'), q[s'][h'], c.lengths[s'], scale)
        invariant forall h' :: 0 <= h' < h ==>
          out[s, h'] == PagedRow(exp, c, s, KvOf(numHeads, c.kvHeads, h'), q[s][h'], c.lengths[s], scale)
      {
        var kv := KvOf(numHeads, c.kvHeads, h);
        var kFull, vFull := Gather(c.kPages[kv], c.tables[s]), Gather(c.vPages[kv], c.tables[s]);
        out[s, h] := ComputeRow(exp, c, s, kv, kFull, vFull, q[s][h], length, scale);
      }
    }
  }

  /** Prefill: row `t` of a chunk of qLen rows sits at position length - qLen + t and sees up to it. */
  method PrefillReference(exp: real -> real, c: Cache, q: seq<seq<seq<Vector>>>, qLen: nat, numHeads: nat, scale: real)
    returns (out: array3<Vector>)
    requires PositiveFunction(exp) && c.Valid() && HeadsGrouped(numHeads, c.kvHeads)
    requires Queries3(q, |c.tables|, qLen, numHeads, c.width)
    ensures fresh(out) && out.Length0 == |c.tables| && out.Length1 == qLen && out.Length2 == numHeads
    ensures forall s, t, h :: 0 <= s < |c.tables| && 0 <= t < qLen && 0 <= h < numHeads ==>
      out[s, t, h] == PagedRow(exp, c, s, KvOf(numHeads, c.kvHeads, h), q[s][t][h], c.lengths[s] - qLen + t + 1, scale)
  {
    hide PagedRow, Gather;
    out := new Vector[|c.tables|, qLen, numHeads]((i, j, k) => Zeros(c.width));
    for s := 0 to |c.tables|
      invariant forall s', t, h :: 0 <= s' < s && 0 <= t < qLen && 0 <= h < numHeads ==>
        out[s', t, h] == PagedRow(exp, c, s', KvOf(numHeads, c.kvHeads, h), q[s'][t][h], c.lengths[s'] - qLen + t + 1,
                                  scale)
    {
      SequenceRows(exp, c, q[s], s, qLen, numHeads, scale, out);
    }
  }

  /** The part of the prefill and mixed references that fills the rows of one sequence: its query
      rows 0..qLen - 1, each seeing up to its own position. Nothing else changes. */
  method SequenceRows(exp: real -> real, c: Cache, q: seq<seq<Vector>>, s: nat, qLen: nat, numHeads: nat, scale: real,
                      out: array3<Vector>)
    requires PositiveFunction(exp) && c.Valid() && HeadsGrouped(numHeads, c.kvHeads) && s < |c.tables|
    requires Queries2(q, |q|, numHeads, c.width) && qLen <= |q|
    requires out.Length0 == |c.tables| && out.Length1 == |q| && out.Length2 == numHeads
    modifies out
    ensures forall t, h :: 0 <= t < qLen && 0 <= h < numHeads ==>
      out[s, t, h] == PagedRow(exp, c, s, KvOf(numHeads, c.kvHeads, h), q[t][h], c.lengths[s] - qLen + t + 1, scale)
    ensures forall s', t, h :: 0 <= s' < out.Length0 && 0 <= t < |q| && 0 <= h < numHeads && (s' != s || t >= qLen) ==>
      out[s', t, h] == old(out[s', t, h])
  {
    hide PagedRow, Gather;
    for h := 0 to numHeads
      invariant forall t, h' :: 0 <= t < qLen && 0 <= h' < h ==>
        out[s, t, h'] == PagedRow(exp, c, s, KvOf(numHeads, c.kvHeads, h'), q[t][h'], c.lengths[s] - qLen + t + 1,
                                  scale)
      invariant forall s', t, h' ::
        0 <= s' < out.Length0 && 0 <= t < |q| && 0 <= h' < numHeads && (s' != s || t >= qLen) ==>
        out[s', t, h'] == old(out[s', t, h'])
    {
      var kv := KvOf(numHeads, c.kvHeads, h);
      var kFull, vFull := Gather(c.kPages[kv], c.tables[s]), Gather(c.vPages[kv], c.tables[s]);
      for t := 0 to qLen
        invariant forall t', h' :: 0 <= t' < qLen && 0 <= h' < h ==>
          out[s, t', h'] == PagedRow(exp, c, s, KvOf(numHeads, c.kvHeads, h'), q[t'][h'], c.lengths[s] - qLen + t' + 1,
                                     scale)
        invariant forall t' :: 0 <= t' < t ==>
          out[s, t', h] == PagedRow(exp, c, s, kv, q[t'][h], c.lengths[s] - qLen + t' + 1, scale)
        invariant forall s', t', h' ::
          0 <= s' < out.Length0 && 0 <= t' < |q| && 0 <= h' < numHeads && (s' != s || t' >= qLen) ==>
          out[s', t', h'] == old(out[s', t', h'])
      {
        var qPos := c.lengths[s] - qLen + t;
        out[s, t, h] := ComputeRow(exp, c, s, kv, kFull, vFull, q[t][h], qPos + 1, scale);
      }
    }
  }

  /** Mixed: each sequence brings its own number of query rows; the rows behind them stay zero. */
  method MixedReference(exp: real -> real, c: Cache, q: seq<seq<seq<Vector>>>, maxQLen: nat, qLens: seq<nat>,
                        numHeads: nat, scale: real)
    returns (out: array3<Vector>)
    requires PositiveFunction(exp) && c.Valid() && HeadsGrouped(numHeads, c.kvHeads)
    requires Queries3(q, |c.tables|, maxQLen, numHeads, c.width)
    requires |qLens| == |c.tables| && forall s :: 0 <= s < |qLens| ==> qLens[s] <= maxQLen
    ensures fresh(out) && out.Length0 == |c.tables| && out.Length1 == maxQLen && out.Length2 == numHeads
    ensures forall s, t, h :: 0 <= s < |c.tables| && 0 <= t < maxQLen && 0 <= h < numHeads ==>
      out[s, t, h] == MixedRow(exp, c, q, maxQLen, qLens, numHeads, scale, s, t, h)
  {
    hide PagedRow, Gather;
    out := new Vector[|c.tables|, maxQLen, numHeads]((i, j, k) => Zeros(c.width));
    for s := 0 to |c.tables|
      invariant forall s', t, h :: 0 <= s' < |c.tables| && 0 <= t < maxQLen && 0 <= h < numHeads ==>
        out[s', t, h] == if s' < s then MixedRow(exp, c, q, maxQLen, qLens, numHeads, scale, s', t, h)
          else Zeros(c.width)
    {
      SequenceRows(exp, c, q[s], s, qLens[s], numHeads, scale, out);
    }
  }

  function MixedRow(exp: real -> real, c: Cache, q: seq<seq<seq<Vector>>>, maxQLen: nat, qLens: seq<nat>, numHeads: nat,
                    scale: real, s: nat, t: nat, h: nat): (row: Vector)
    requires PositiveFunction(exp) && c.Valid() && HeadsGrouped(numHeads, c.kvHeads)
    requires Queries3(q, |c.tables|, maxQLen, numHeads, c.width)
    requires |qLens| == |c.tables| && s < |c.tables| && t < maxQLen && h < numHeads
  {
    if t < qLens[s] then PagedRow(exp, c, s, KvOf(numHeads, c.kvHeads, h), q[s][t][h], c.lengths[s] - qLens[s] + t + 1,
                                  scale)
    else Zeros(c.width)
  }

  // ---- what the references agree on -------------------------------------------------------

  /** A prefill chunk is that many decode steps: running decode with the sequence cut at each
      row's position gives the rows of the chunk. */
  method ChunkAsDecodeSteps(exp: real -> real, c: Cache, q: seq<seq<seq<Vector>>>, qLen: nat, numHeads: nat,
                            scale: real)
    returns (chunk: array3<Vector>, steps: seq<array2<Vector>>)
    requires PositiveFunction(exp) && c.Valid() && HeadsGrouped(numHeads, c.kvHeads)
    requires Queries3(q, |c.tables|, qLen, numHeads, c.width)
    ensures chunk.Length0 == |c.tables| && chunk.Length1 == qLen == |steps| && chunk.Length2 == numHeads
    ensures forall t :: 0 <= t < qLen ==> steps[t].Length0 == |c.tables| && steps[t].Length1 == numHeads
    ensures forall s, t, h :: 0 <= s < |c.tables| && 0 <= t < qLen && 0 <= h < numHeads ==>
        chunk[s, t, h] == steps[t][s, h]
  {
    hide PagedRow;
    chunk := PrefillReference(exp, c, q, qLen, numHeads, scale);
    steps := [];
    for t := 0 to qLen
      invariant |steps| == t
      invariant forall t' :: 0 <= t' < t ==> steps[t'].Length0 == |c.tables| && steps[t'].Length1 == numHeads
      invariant forall s, t', h :: 0 <= s < |c.tables| && 0 <= t' < t && 0 <= h < numHeads ==>
          chunk[s, t', h] == steps[t'][s, h]
      modifies {}
    {
      var cut := c.(lengths := seq(|c.lengths|, s requires 0 <= s < |c.lengths| => c.lengths[s] - qLen + t + 1));
      var row := seq(|q|, s requires 0 <= s < |q| => q[s][t]);
      var step := PagedReference(exp, cut, row, numHeads, scale);
      forall s, h | 0 <= s < |c.tables| && 0 <= h < numHeads ensures chunk[s, t, h] == step[s, h] {
        assert cut.lengths[s] == c.lengths[s] - qLen + t + 1 && row[s] == q[s][t];
        RowIgnoresLengths(exp, c, cut, s, KvOf(numHeads, c.kvHeads, h), q[s][t][h], cut.lengths[s], scale);
      }
      steps := steps + [step];
    }
  }

  lemma RowIgnoresLengths(exp: real -> real, c: Cache, c': Cache, s: nat, kv: nat, q: Vector, visible: int, scale: real)
    requires PositiveFunction(exp) && c.Valid() && c'.Valid() && c' == c.(lengths := c'.lengths)
    requires s < |c.tables| && kv < c.kvHeads && |q| == c.width
    ensures PagedRow(exp, c, s, kv, q, visible, scale) == PagedRow(exp, c', s, kv, q, visible, scale)
  {
  }

  /** With one query row per sequence the mixed reference is the decode reference. */
  method MixedAsDecode(exp: real -> real, c: Cache, q: seq<seq<seq<Vector>>>, numHeads: nat, scale: real)
    returns (mixed: array3<Vector>, decode: array2<Vector>)
    requires PositiveFunction(exp) && c.Valid() && HeadsGrouped(numHeads, c.kvHeads)
    requires Queries3(q, |c.tables|, 1, numHeads, c.width)
    ensures mixed.Length0 == decode.Length0 == |c.tables| && mixed.Length1 == 1
    ensures mixed.Length2 == decode.Length1 == numHeads
    ensures forall s, h :: 0 <= s < |c.tables| && 0 <= h < numHeads ==> mixed[s, 0, h] == decode[s, h]
  {
    hide PagedRow;
    mixed := MixedReference(exp, c, q, 1, seq(|c.tables|, s => 1), numHeads, scale);
    decode := PagedReference(exp, c, seq(|q|, s requires 0 <= s < |q| => q[s][0]), numHeads, scale);
  }

  /** With equally many query rows everywhere the mixed reference is the prefill reference. */
  method MixedAsPrefill(exp: real -> real, c: Cache, q: seq<seq<seq<Vector>>>, qLen: nat, numHeads: nat, scale: real)
    returns (mixed: array3<Vector>, prefill: array3<Vector>)
    requires PositiveFunction(exp) && c.Valid() && HeadsGrouped(numHeads, c.kvHeads)
    requires Queries3(q, |c.tables|, qLen, numHeads, c.width)
    ensures mixed.Length0 == prefill.Length0 == |c.tables| && mixed.Length1 == prefill.Length1 == qLen
    ensures mixed.Length2 == prefill.Length2 == numHeads
    ensures forall s, t, h :: 0 <= s < |c.tables| && 0 <= t < qLen && 0 <= h < numHeads ==>
        mixed[s, t, h] == prefill[s, t, h]
  {
    hide PagedRow;
    mixed := MixedReference(exp, c, q, qLen, seq(|c.tables|, s => qLen), numHeads, scale);
    prefill := PrefillReference(exp, c, q, qLen, numHeads, scale);
  }

  // ---- paging does not matter -------------------------------------------------------------

  /** The table lays `rows` out in order: logical row p is where table entry p / pageSize says. */
  ghost predicate LaidOut(c: Cache, pages: seq<seq<Vector>>, table: seq<nat>, rows: seq<Vector>)
    requires c.HeadShaped(pages) && c.TableShaped(table) && c.pageSize >= 1
  {
    && |rows| <= c.maxPages * c.pageSize
    && forall p :: 0 <= p < |rows| ==>
      0 <= p / c.pageSize < c.maxPages && rows[p] == pages[table[p / c.pageSize]][p % c.pageSize]
  }

  /** Through any table that lays the sequence out in order, a row that sees `visible` >= 1 logical
      rows is plain attention over them: page numbers, padding entries and whatever the pages hold
      behind the sequence play no part. */
  lemma PagedIsDense(exp: real -> real, c: Cache, s: nat, kv: nat, q: Vector, scale: real, ks: seq<Vector>,
                     vs: seq<Vector>)
    requires PositiveFunction(exp) && c.Valid() && s < |c.tables| && kv < c.kvHeads && |q| == c.width
    requires LaidOut(c, c.kPages[kv], c.tables[s], ks) && LaidOut(c, c.vPages[kv], c.tables[s], vs)
    requires |ks| == |vs| >= 1
    ensures Rows(ks, c.width) && Rows(vs, c.width)
    ensures PagedRow(exp, c, s, kv, q, |ks|, scale) == Attend(exp, q, ks, vs, scale)
    ensures PagedRow(exp, c, s, kv, q, |ks|, scale) == DenseHead(exp, [q], ks, vs, scale, false, c.width)[0]
  {
    hide Attend, Gather, DenseHead;
    GatherAt(c, c.kPages[kv], c.tables[s]);
    GatherAt(c, c.vPages[kv], c.tables[s]);
    var gk, gv := Gather(c.kPages[kv], c.tables[s]), Gather(c.vPages[kv], c.tables[s]);
    assert gk[..|ks|] == ks && gv[..|vs|] == vs;
    DenseRow(exp, [q], ks, vs, scale, false, c.width, 0);
    assert ks[..|ks|] == ks && vs[..|vs|] == vs;
  }

  /** Row `t` of a prefill chunk is the row at its position of causal attention over the whole
      sequence. */
  lemma PrefillIsCausal(exp: real -> real, c: Cache, s: nat, kv: nat, qs: seq<Vector>, scale: real, ks: seq<Vector>,
                        vs: seq<Vector>, qLen: nat, t: nat)
    requires PositiveFunction(exp) && c.Valid() && s < |c.tables| && kv < c.kvHeads && Rows(qs, c.width)
    requires LaidOut(c, c.kPages[kv], c.tables[s], ks) && LaidOut(c, c.vPages[kv], c.tables[s], vs)
    requires |qs| == |ks| == |vs| && t < qLen <= |ks|
    ensures Rows(ks, c.width) && Rows(vs, c.width)
    ensures var place := |ks| - qLen + t;
            PagedRow(exp, c, s, kv, qs[place], place + 1, scale)
              == DenseHead(exp, qs, ks, vs, scale, true, c.width)[place]
  {
    hide Attend, Gather, DenseHead, PagedRow;
    var place := |ks| - qLen + t;
    PagedIsDense(exp, c, s, kv, qs[place], scale, ks[..place + 1], vs[..place + 1]);
    LaidOutRows(c, c.kPages[kv], c.tables[s], ks);
    LaidOutRows(c, c.vPages[kv], c.tables[s], vs);
    DenseRow(exp, qs, ks, vs, scale, true, c.width, place);
    assert place + 1 == |ks| ==> ks[..place + 1] == ks && vs[..place + 1] == vs;
  }

  /** The dense rows of every sequence, `ks[s][kv]` and `vs[s][kv]`, each laid out by its table. */
  ghost predicate AllLaidOut(c: Cache, ks: seq<Tensor>, vs: seq<Tensor>)
    requires c.Valid()
  {
    |ks| == |vs| == |c.tables| && forall s :: 0 <= s < |c.tables| ==> SequenceLaidOut(c, s, ks[s], vs[s])
  }

  ghost predicate SequenceLaidOut(c: Cache, s: nat, ks: Tensor, vs: Tensor)
    requires c.Valid() && s < |c.tables|
  {
    && c.lengths[s] >= 1 && |ks| == |vs| == c.kvHeads
    && forall kv :: 0 <= kv < c.kvHeads ==>
         && |ks[kv]| == |vs[kv]| == c.lengths[s]
         && LaidOut(c, c.kPages[kv], c.tables[s], ks[kv]) && LaidOut(c, c.vPages[kv], c.tables[s], vs[kv])
  }

  /** Every query head gets the rows of the kv head that its group shares. */
  function PerHead(rows: Tensor, numHeads: nat): (t: Tensor)
    requires HeadsGrouped(numHeads, |rows|)
    ensures |t| == numHeads && forall h :: 0 <= h < numHeads ==> t[h] == rows[KvOf(numHeads, |rows|, h)]
  {
    seq(numHeads, h requires 0 <= h < numHeads => rows[KvOf(numHeads, |rows|, h)])
  }

  /** Dense attention over sequence `s` alone, for query rows by head. */
  ghost function DenseOver(exp: real -> real, c: Cache, s: nat, q: Tensor, ks: Tensor, vs: Tensor, scale: real,
                           causal: bool, numHeads: nat, rows: nat): (out: Tensor)
    requires PositiveFunction(exp) && c.Valid() && s < |c.tables| && HeadsGrouped(numHeads, c.kvHeads)
    requires SequenceLaidOut(c, s, ks, vs) && Shaped(q, numHeads, rows, c.width)
    ensures Shaped(out, numHeads, rows, c.width)
  {
    PerHeadShaped(c, s, ks, vs, numHeads);
    DenseReference(exp, q, PerHead(ks, numHeads), PerHead(vs, numHeads), scale, causal, numHeads, rows, c.lengths[s],
                   c.width)
  }

  lemma PerHeadShaped(c: Cache, s: nat, ks: Tensor, vs: Tensor, numHeads: nat)
    requires c.Valid() && s < |c.tables| && HeadsGrouped(numHeads, c.kvHeads) && SequenceLaidOut(c, s, ks, vs)
    ensures Shaped(PerHead(ks, numHeads), numHeads, c.lengths[s], c.width)
    ensures Shaped(PerHead(vs, numHeads), numHeads, c.lengths[s], c.width)
  {
    forall kv | 0 <= kv < c.kvHeads ensures Rows(ks[kv], c.width) && Rows(vs[kv], c.width) {
      LaidOutRows(c, c.kPages[kv], c.tables[s], ks[kv]);
      LaidOutRows(c, c.vPages[kv], c.tables[s], vs[kv]);
    }
  }

  /** One query row per head. */
  function SingleRows(q: seq<Vector>): (t: Tensor)
    ensures |t| == |q| && forall h :: 0 <= h < |q| ==> t[h] == [q[h]]
  {
    seq(|q|, h requires 0 <= h < |q| => [q[h]])
  }

  /** Decode through the tables is dense attention, sequence by sequence and head by head. */
  method PagedMatchesDense(exp: real -> real, c: Cache, q: seq<seq<Vector>>, numHeads: nat, scale: real,
                           ghost ks: seq<Tensor>, ghost vs: seq<Tensor>)
    returns (out: array2<Vector>)
    requires PositiveFunction(exp) && c.Valid() && HeadsGrouped(numHeads, c.kvHeads)
    requires Queries2(q, |c.tables|, numHeads, c.width) && AllLaidOut(c, ks, vs)
    ensures out.Length0 == |c.tables| && out.Length1 == numHeads
    ensures forall s, h :: 0 <= s < |c.tables| && 0 <= h < numHeads ==>
      out[s, h] == DenseOver(exp, c, s, SingleRows(q[s]), ks[s], vs[s], scale, false, numHeads, 1)[h][0]
  {
    out := PagedReference(exp, c, q, numHeads, scale);
    forall s, h | 0 <= s < |c.tables| && 0 <= h < numHeads
      ensures out[s, h] == DenseOver(exp, c, s, SingleRows(q[s]), ks[s], vs[s], scale, false, numHeads, 1)[h][0]
    {
      hide PagedRow, LaidOut, DenseHead;
      PagedIsDense(exp, c, s, KvOf(numHeads, c.kvHeads, h), q[s][h], scale,
                   ks[s][KvOf(numHeads, c.kvHeads, h)], vs[s][KvOf(numHeads, c.kvHeads, h)]);
    }
  }

  /** Queries for every place of a sequence, of which a chunk brings the last rows. */
  ghost predicate ChunkOf(q: seq<seq<Vector>>, qs: Tensor, numHeads: nat, length: int, qLen: nat, width: nat)
  {
    && qLen <= length && Queries2(q, qLen, numHeads, width) && Shaped(qs, numHeads, length, width)
    && forall t, h :: 0 <= t < qLen && 0 <= h < numHeads ==> q[t][h] == qs[h][length - qLen + t]
  }

  /** The row of causal dense attention at the place where row `t` of the chunk sits. */
  ghost function CausalRow(exp: real -> real, c: Cache, s: nat, q: seq<seq<Vector>>, qs: Tensor, ks: Tensor, vs: Tensor,
                           scale: real, numHeads: nat, qLen: nat, t: nat, h: nat): (row: Vector)
    requires PositiveFunction(exp) && c.Valid() && s < |c.tables| && HeadsGrouped(numHeads, c.kvHeads)
    requires SequenceLaidOut(c, s, ks, vs) && ChunkOf(q, qs, numHeads, c.lengths[s], qLen, c.width) && t < qLen
    requires h < numHeads
  {
    DenseOver(exp, c, s, qs, ks, vs, scale, true, numHeads, c.lengths[s])[h][c.lengths[s] - qLen + t]
  }

  lemma ChunkRowIsCausal(exp: real -> real, c: Cache, s: nat, q: seq<seq<Vector>>, qs: Tensor, ks: Tensor, vs: Tensor,
                         scale: real, numHeads: nat, qLen: nat, t: nat, h: nat)
    requires PositiveFunction(exp) && c.Valid() && s < |c.tables| && HeadsGrouped(numHeads, c.kvHeads)
    requires SequenceLaidOut(c, s, ks, vs) && ChunkOf(q, qs, numHeads, c.lengths[s], qLen, c.width) && t < qLen
    requires h < numHeads
    ensures |q[t][h]| == c.width
    ensures PagedRow(exp, c, s, KvOf(numHeads, c.kvHeads, h), q[t][h], c.lengths[s] - qLen + t + 1, scale)
         == CausalRow(exp, c, s, q, qs, ks, vs, scale, numHeads, qLen, t, h)
  {
    hide PagedRow, LaidOut, DenseHead, KvOf;
    var kv := KvOf(numHeads, c.kvHeads, h);
    assert Rows(qs[h], c.width);
    PrefillIsCausal(exp, c, s, kv, qs[h], scale, ks[kv], vs[kv], qLen, t);
    PerHeadShaped(c, s, ks, vs, numHeads);
  }

  /** Prefill through the tables gives the last rows of causal dense attention. */
  method PrefillMatchesDense(exp: real -> real, c: Cache, q: seq<seq<seq<Vector>>>, qLen: nat, numHeads: nat,
                             scale: real, ghost qs: seq<Tensor>, ghost ks: seq<Tensor>, ghost vs: seq<Tensor>)
    returns (out: array3<Vector>)
    requires PositiveFunction(exp) && c.Valid() && HeadsGrouped(numHeads, c.kvHeads)
    requires Queries3(q, |c.tables|, qLen, numHeads, c.width) && AllLaidOut(c, ks, vs)
    requires |qs| == |c.tables|
    requires forall s :: 0 <= s < |c.tables| ==> ChunkOf(q[s], qs[s], numHeads, c.lengths[s], qLen, c.width)
    ensures out.Length0 == |c.tables| && out.Length1 == qLen && out.Length2 == numHeads
    ensures forall s, t, h :: 0 <= s < |c.tables| && 0 <= t < qLen && 0 <= h < numHeads ==>
      out[s, t, h] == CausalRow(exp, c, s, q[s], qs[s], ks[s], vs[s], scale, numHeads, qLen, t, h)
  {
    out := PrefillReference(exp, c, q, qLen, numHeads, scale);
    hide PagedRow, CausalRow, ChunkOf, SequenceLaidOut, KvOf;
    forall s, t, h | 0 <= s < |c.tables| && 0 <= t < qLen && 0 <= h < numHeads
      ensures out[s, t, h] == CausalRow(exp, c, s, q[s], qs[s], ks[s], vs[s], scale, numHeads, qLen, t, h)
    {
      ChunkRowIsCausal(exp, c, s, q[s], qs[s], ks[s], vs[s], scale, numHeads, qLen, t, h);
    }
  }

  /** A row of the mixed output in dense terms: causal attention at its place, or zeros behind the rows
      that the sequence brings. */
  ghost function MixedDense(exp: real -> real, c: Cache, s: nat, q: seq<seq<Vector>>, qs: Tensor, ks: Tensor,
                            vs: Tensor, scale: real, numHeads: nat, qLen: nat, t: nat, h: nat): (row: Vector)
    requires PositiveFunction(exp) && c.Valid() && s < |c.tables| && HeadsGrouped(numHeads, c.kvHeads) && h < numHeads
    requires SequenceLaidOut(c, s, ks, vs) && qLen <= |q|
    requires ChunkOf(q[..qLen], qs, numHeads, c.lengths[s], qLen, c.width)
  {
    if t < qLen then CausalRow(exp, c, s, q[..qLen], qs, ks, vs, scale, numHeads, qLen, t, h) else Zeros(c.width)
  }

  lemma MixedRowIsDense(exp: real -> real, c: Cache, s: nat, q: seq<seq<seq<Vector>>>, maxQLen: nat, qLens: seq<nat>,
                        qs: Tensor, ks: Tensor, vs: Tensor, scale: real, numHeads: nat, t: nat, h: nat)
    requires PositiveFunction(exp) && c.Valid() && s < |c.tables| == |qLens| && HeadsGrouped(numHeads, c.kvHeads)
    requires Queries3(q, |c.tables|, maxQLen, numHeads, c.width) && t < maxQLen && h < numHeads && qLens[s] <= |q[s]|
    requires SequenceLaidOut(c, s, ks, vs)
    requires ChunkOf(q[s][..qLens[s]], qs, numHeads, c.lengths[s], qLens[s], c.width)
    ensures MixedRow(exp, c, q, maxQLen, qLens, numHeads, scale, s, t, h)
         == MixedDense(exp, c, s, q[s], qs, ks, vs, scale, numHeads, qLens[s], t, h)
  {
    hide PagedRow, CausalRow, ChunkOf, SequenceLaidOut, KvOf, Zeros;
    if t < qLens[s] {
      ChunkRowIsCausal(exp, c, s, q[s][..qLens[s]], qs, ks, vs, scale, numHeads, qLens[s], t, h);
    }
  }

  /** Mixed batches too: however many query rows each sequence brings, they are the last rows of its own
      causal dense attention. */
  method MixedMatchesDense(exp: real -> real, c: Cache, q: seq<seq<seq<Vector>>>, maxQLen: nat, qLens: seq<nat>,
                           numHeads: nat, scale: real, ghost qs: seq<Tensor>, ghost ks: seq<Tensor>,
                           ghost vs: seq<Tensor>)
    returns (out: array3<Vector>)
    requires PositiveFunction(exp) && c.Valid() && HeadsGrouped(numHeads, c.kvHeads)
    requires Queries3(q, |c.tables|, maxQLen, numHeads, c.width) && AllLaidOut(c, ks, vs)
    requires |qLens| == |qs| == |c.tables| && forall s :: 0 <= s < |qLens| ==> qLens[s] <= maxQLen
    requires forall s :: 0 <= s < |c.tables| ==>
      ChunkOf(q[s][..qLens[s]], qs[s], numHeads, c.lengths[s], qLens[s], c.width)
    ensures out.Length0 == |c.tables| && out.Length1 == maxQLen && out.Length2 == numHeads
    ensures forall s, t, h :: 0 <= s < |c.tables| && 0 <= t < maxQLen && 0 <= h < numHeads ==>
      out[s, t, h] == MixedDense(exp, c, s, q[s], qs[s], ks[s], vs[s], scale, numHeads, qLens[s], t, h)
  {
    out := MixedReference(exp, c, q, maxQLen, qLens, numHeads, scale);
    hide MixedRow, MixedDense, ChunkOf, SequenceLaidOut;
    forall s, t, h | 0 <= s < |c.tables| && 0 <= t < maxQLen && 0 <= h < numHeads
      ensures out[s, t, h] == MixedDense(exp, c, s, q[s], qs[s], ks[s], vs[s], scale, numHeads, qLens[s], t, h)
    {
      MixedRowIsDense(exp, c, s, q, maxQLen, qLens, qs[s], ks[s], vs[s], scale, numHeads, t, h);
    }
  }

  lemma WholeWeight(e: real, x: real)
    requires e > 0.0
    ensures e / e * x == x
  {
    assert e / e == 1.0;
  }

  /** The bound is exact: a sequence of length 0 is not attention over nothing. Its output is what
      the padding pages happen to hold. */
  lemma EmptySequenceReadsPages(exp: real -> real, scale: real, x: real)
    requires PositiveFunction(exp)
    ensures var c := Cache([[[[x]]]], [[[[x]]]], [[0]], [0], 1, 1, 1, 1, 1);
            c.Valid() && PagedRow(exp, c, 0, 0, [0.0], 0, scale) == [x]
  {
    var c := Cache([[[[x]]]], [[[[x]]]], [[0]], [0], 1, 1, 1, 1, 1);
    assert c.Valid();
    var pages: seq<seq<Vector>> := [[[x]]];
    var table: seq<nat> := [0];
    assert Gather(pages, table[..0]) == [];
    assert Gather(pages, table) == [[x]];
    var scores := Mask(Scores([[x]], [0.0], scale), 0);
    assert scores == [Masked];
    var w := Weights(exp, scores, Masked);
    assert w == [exp(0.0)] && w[..0] == [];
    assert Sum(w) == exp(0.0);
    WholeWeight(exp(0.0), x);
    assert Combine(w, [[x]], exp(0.0), 0) == x;
  }

  lemma LaidOutRows(c: Cache, pages: seq<seq<Vector>>, table: seq<nat>, rows: seq<Vector>)
    requires c.HeadShaped(pages) && c.TableShaped(table) && c.pageSize >= 1 && LaidOut(c, pages, table, rows)
    ensures Rows(rows, c.width)
  {
  }

  // ---- laying sequences out ---------------------------------------------------------------

  /** Pages that a sequence of this length needs. */
  function PagesFor(length: nat, pageSize: nat): (n: nat)
    requires pageSize >= 1
    ensures n * pageSize >= length && (if length == 0 then n == 0 else n >= 1 && (n - 1) * pageSize < length)
  {
    CeilDivBounds(length, pageSize);
    CeilDiv(length, pageSize)
  }

  /** The first page of sequence `s` in the order in which pages are handed out. */
  function FirstPage(lengths: seq<nat>, pageSize: nat, s: nat): (cursor: nat)
    requires pageSize >= 1 && s <= |lengths|
  {
    if s == 0 then 0 else FirstPage(lengths, pageSize, s - 1) + PagesFor(lengths[s - 1], pageSize)
  }

  lemma {:induction false} FirstPageGrows(lengths: seq<nat>, pageSize: nat, s: nat, s': nat)
    requires pageSize >= 1 && s < s' <= |lengths|
    ensures FirstPage(lengths, pageSize, s) + PagesFor(lengths[s], pageSize) <= FirstPage(lengths, pageSize, s')
    decreases s'
  {
    if s < s' - 1 { FirstPageGrows(lengths, pageSize, s, s' - 1); }
  }

  lemma PagesForAtMost(length: nat, pageSize: nat, maxPages: nat)
    requires pageSize >= 1 && length <= maxPages * pageSize
    ensures PagesFor(length, pageSize) <= maxPages
  {
    hide PagesFor;
    var n: int := PagesFor(length, pageSize);
    ScaleMonotone(maxPages, n - 1, pageSize);
  }

  lemma ScaleMonotone(a: nat, b: int, k: nat)
    ensures a <= b ==> a * k <= b * k
  {
    assert (b - a) * k == b * k - a * k;
    assert b >= a ==> (b - a) * k >= 0;
  }

  lemma {:induction false} PagesSuffice(lengths: seq<nat>, pageSize: nat, maxPages: nat, s: nat)
    requires pageSize >= 1 && s <= |lengths|
    requires forall i :: 0 <= i < |lengths| ==> lengths[i] <= maxPages * pageSize
    ensures FirstPage(lengths, pageSize, s) <= s * maxPages
  {
    if s > 0 {
      PagesSuffice(lengths, pageSize, maxPages, s - 1);
      PagesForAtMost(lengths[s - 1], pageSize, maxPages);
      assert s * maxPages == (s - 1) * maxPages + maxPages;
    }
  }

  ghost predicate Permutation(perm: seq<nat>)
  {
    && (forall i :: 0 <= i < |perm| ==> perm[i] < |perm|)
    && forall i, j :: 0 <= i < j < |perm| ==> perm[i] != perm[j]
  }

  /** Page number in entry `pi` of sequence `s`: the next page of `perm`, or perm[0] as padding. */
  function TableEntry(lengths: seq<nat>, pageSize: nat, perm: seq<nat>, s: nat, pi: nat): (page: nat)
    requires pageSize >= 1 && s < |lengths| && perm != []
  {
    var i := FirstPage(lengths, pageSize, s) + pi;
    if pi < PagesFor(lengths[s], pageSize) && i < |perm| then perm[i] else perm[0]
  }

  /** Pages never run out: every live entry is inside the permutation. */
  lemma PagesNeverRunOut(lengths: seq<nat>, pageSize: nat, maxPages: nat, total: nat, s: nat)
    requires pageSize >= 1 && s < |lengths| && total == |lengths| * maxPages + 2
    requires forall i :: 0 <= i < |lengths| ==> lengths[i] <= maxPages * pageSize
    ensures PagesFor(lengths[s], pageSize) <= maxPages
    ensures FirstPage(lengths, pageSize, s) + PagesFor(lengths[s], pageSize) + 2 <= total
  {
    hide PagesFor, FirstPage;
    PagesForAtMost(lengths[s], pageSize, maxPages);
    PagesSuffice(lengths, pageSize, maxPages, s);
    RowsLeft(|lengths|, s, maxPages);
  }

  lemma RowsLeft(n: nat, s: nat, m: nat)
    requires s < n
    ensures s * m + m <= n * m
  {
    var d := n - s - 1;
    assert n * m == d * m + s * m + m;
  }

  /** Hands pages out in the order of `perm`; entries past a sequence's last page repeat perm[0].
      The plain makers use the identity, the mixed one a random permutation. */
  method MakeTables(lengths: seq<nat>, pageSize: nat, maxPages: nat, perm: seq<nat>) returns (tables: array2<nat>)
    requires pageSize >= 1 && maxPages >= 1
    requires |perm| == |lengths| * maxPages + 2
    requires forall s :: 0 <= s < |lengths| ==> 1 <= lengths[s] <= maxPages * pageSize
    ensures fresh(tables) && tables.Length0 == |lengths| && tables.Length1 == maxPages
    ensures forall s, pi :: 0 <= s < |lengths| && 0 <= pi < maxPages ==>
        tables[s, pi] == TableEntry(lengths, pageSize, perm, s, pi)
  {
    assert |perm| >= 2;
    hide PagesFor;
    tables := new nat[|lengths|, maxPages]((i, j) => 0);
    var cursor := 0;
    for s := 0 to |lengths|
      invariant cursor == FirstPage(lengths, pageSize, s)
      invariant forall s', pi :: 0 <= s' < s && 0 <= pi < maxPages ==>
          tables[s', pi] == TableEntry(lengths, pageSize, perm, s', pi)
    {
      var used := PagesFor(lengths[s], pageSize);
      ghost var first := cursor;
      PagesNeverRunOut(lengths, pageSize, maxPages, |perm|, s);
      for pi := 0 to maxPages
        invariant cursor == first + if pi < used then pi else used
        invariant forall s', pi' :: 0 <= s' < s && 0 <= pi' < maxPages ==>
            tables[s', pi'] == TableEntry(lengths, pageSize, perm, s', pi')
        invariant forall pi' :: 0 <= pi' < pi ==> tables[s, pi'] == TableEntry(lengths, pageSize, perm, s, pi')
      {
        tables[s, pi] := if pi < used then perm[cursor] else perm[0];
        if pi < used {
          cursor := cursor + 1;
        }
      }
    }
  }

  /** The sequences take as many pages as hold them, one after the other from the start of `perm`. Entries up to
      the sequence's last page name them in that order, and the others are perm[0]. */
  lemma EntrySpelledOut(lengths: seq<nat>, pageSize: nat, maxPages: nat, perm: seq<nat>, s: nat, pi: nat)
    requires pageSize >= 1 && |perm| == |lengths| * maxPages + 2 && s < |lengths|
    requires forall i :: 0 <= i < |lengths| ==> 1 <= lengths[i] <= maxPages * pageSize
    ensures perm != []
    ensures var first, next := FirstPage(lengths, pageSize, s), FirstPage(lengths, pageSize, s + 1);
            && (s == 0 ==> first == 0) && first < next <= |perm|
            && (next - 1 - first) * pageSize < lengths[s] <= (next - first) * pageSize
            && (pi * pageSize < lengths[s] ==>
                  pi < next - first && TableEntry(lengths, pageSize, perm, s, pi) == perm[first + pi])
            && (pi * pageSize >= lengths[s] ==> TableEntry(lengths, pageSize, perm, s, pi) == perm[0])
  {
    PagesNeverRunOut(lengths, pageSize, maxPages, |perm|, s);
    var n := PagesFor(lengths[s], pageSize);
    hide PagesFor;
    assert FirstPage(lengths, pageSize, s + 1) == FirstPage(lengths, pageSize, s) + n;
    ScaleMonotone(n, pi, pageSize);
    ScaleMonotone(pi, n - 1, pageSize);
  }

  /** What the makers promise: every entry is a page of the pool, every live entry has a page of its
      own, and the live entries of a sequence cover its length. */
  lemma LivePagesDistinct(lengths: seq<nat>, pageSize: nat, maxPages: nat, perm: seq<nat>, s: nat, pi: nat, s': nat,
                          pi': nat)
    requires pageSize >= 1 && Permutation(perm) && |perm| == |lengths| * maxPages + 2 && s < |lengths| && s' < |lengths|
    requires forall i :: 0 <= i < |lengths| ==> lengths[i] <= maxPages * pageSize
    ensures PagesFor(lengths[s], pageSize) <= maxPages && lengths[s] <= PagesFor(lengths[s], pageSize) * pageSize
    ensures perm != [] && TableEntry(lengths, pageSize, perm, s, pi) < |perm|
    ensures pi < PagesFor(lengths[s], pageSize) && pi' < PagesFor(lengths[s'], pageSize) && (s, pi) != (s', pi')
        ==> TableEntry(lengths, pageSize, perm, s, pi) != TableEntry(lengths, pageSize, perm, s', pi')
  {
    PagesNeverRunOut(lengths, pageSize, maxPages, |perm|, s);
    PagesNeverRunOut(lengths, pageSize, maxPages, |perm|, s');
    if s < s' { FirstPageGrows(lengths, pageSize, s, s'); }
    if s' < s { FirstPageGrows(lengths, pageSize, s', s); }
  }

  /** The pages of one kv head hold row `p` of sequence `s` where the maker's table says. */
  ghost predicate Stored(pages: seq<seq<Vector>>, lengths: seq<nat>, pageSize: nat, perm: seq<nat>,
                         rows: seq<seq<Vector>>)
    requires pageSize >= 1 && perm != [] && |rows| == |lengths|
  {
    forall s, p :: 0 <= s < |lengths| && 0 <= p < |rows[s]| ==> StoredAt(pages, lengths, pageSize, perm, rows, s, p)
  }

  ghost predicate StoredAt(pages: seq<seq<Vector>>, lengths: seq<nat>, pageSize: nat, perm: seq<nat>,
                           rows: seq<seq<Vector>>, s: nat, p: nat)
    requires pageSize >= 1 && perm != [] && |rows| == |lengths| && s < |lengths| && p < |rows[s]|
  {
    var page := TableEntry(lengths, pageSize, perm, s, p / pageSize);
    page < |pages| && p % pageSize < |pages[page]| && pages[page][p % pageSize] == rows[s][p]
  }

  /** A row's place among the pages of its sequence, and in its page. */
  function PageIndex(p: nat, size: nat): (pi: nat)
    requires size >= 1
  {
    p / size
  }

  function SlotIndex(p: nat, size: nat): (slot: nat)
    requires size >= 1
  {
    p % size
  }

  ghost predicate IsSlotOf(lengths: seq<nat>, pageSize: nat, perm: seq<nat>, page: nat, slot: nat, s: nat, p: nat)
    requires pageSize >= 1 && perm != []
  {
    && s < |lengths| && p < lengths[s]
    && TableEntry(lengths, pageSize, perm, s, PageIndex(p, pageSize)) == page && SlotIndex(p, pageSize) == slot
  }

  /** No two rows share a slot. */
  lemma SlotsAreDistinct(lengths: seq<nat>, pageSize: nat, maxPages: nat, perm: seq<nat>, page: nat, slot: nat, s: nat,
                         p: nat, s': nat, p': nat)
    requires pageSize >= 1 && Permutation(perm) && |perm| == |lengths| * maxPages + 2
    requires forall i :: 0 <= i < |lengths| ==> lengths[i] <= maxPages * pageSize
    requires IsSlotOf(lengths, pageSize, perm, page, slot, s, p)
    requires IsSlotOf(lengths, pageSize, perm, page, slot, s', p')
    ensures s == s' && p == p'
  {
    hide TableEntry, Permutation, PagesFor, PageIndex, SlotIndex;
    PageOfRow(lengths[s], pageSize, p);
    PageOfRow(lengths[s'], pageSize, p');
    SameEntry(lengths, pageSize, maxPages, perm, s, PageIndex(p, pageSize), s', PageIndex(p', pageSize));
    SamePlace(p, p', pageSize);
  }

  lemma SameEntry(lengths: seq<nat>, pageSize: nat, maxPages: nat, perm: seq<nat>, s: nat, pi: nat, s': nat, pi': nat)
    requires pageSize >= 1 && Permutation(perm) && |perm| == |lengths| * maxPages + 2 && s < |lengths| && s' < |lengths|
    requires forall i :: 0 <= i < |lengths| ==> lengths[i] <= maxPages * pageSize
    requires pi < PagesFor(lengths[s], pageSize) && pi' < PagesFor(lengths[s'], pageSize) && perm != []
    requires TableEntry(lengths, pageSize, perm, s, pi) == TableEntry(lengths, pageSize, perm, s', pi')
    ensures s == s' && pi == pi'
  {
    hide TableEntry, Permutation, PagesFor;
    LivePagesDistinct(lengths, pageSize, maxPages, perm, s, pi, s', pi');
  }

  lemma SamePlace(p: nat, p': nat, size: nat)
    requires size >= 1
    ensures PageIndex(p, size) == PageIndex(p', size) && SlotIndex(p, size) == SlotIndex(p', size) ==> p == p'
  {
    assert p == p / size * size + p % size;
    assert p' == p' / size * size + p' % size;
  }

  lemma PageOfRow(length: nat, pageSize: nat, p: nat)
    requires pageSize >= 1 && p < length
    ensures PageIndex(p, pageSize) < PagesFor(length, pageSize)
  {
    hide PagesFor;
    ScaleMonotone(PagesFor(length, pageSize), p / pageSize, pageSize);
    assert p == p / pageSize * pageSize + p % pageSize;
  }

  ghost function StoredRow(lengths: seq<nat>, pageSize: nat, perm: seq<nat>, rows: seq<seq<Vector>>, width: nat,
                           page: nat, slot: nat):
    (row: Vector)
    requires pageSize >= 1 && perm != [] && |rows| == |lengths|
    requires forall s :: 0 <= s < |rows| ==> |rows[s]| == lengths[s] && Rows(rows[s], width)
    ensures |row| == width
  {
    if s: nat, p: nat :| IsSlotOf(lengths, pageSize, perm, page, slot, s, p) then
      assert Rows(rows[s], width);
      rows[s][p]
    else Zeros(width)
  }

  /** Over the maker's tables any sequences at all can be held at the same time. */
  lemma RowsCanBeStored(lengths: seq<nat>, pageSize: nat, maxPages: nat, perm: seq<nat>, rows: seq<seq<Vector>>,
                        width: nat)
    returns (pages: seq<seq<Vector>>)
    requires pageSize >= 1 && Permutation(perm) && |perm| == |lengths| * maxPages + 2 && |rows| == |lengths|
    requires forall s :: 0 <= s < |lengths| ==> |rows[s]| == lengths[s] <= maxPages * pageSize && Rows(rows[s], width)
    ensures |pages| == |perm| && forall g :: 0 <= g < |pages| ==> |pages[g]| == pageSize && Rows(pages[g], width)
    ensures perm != [] && Stored(pages, lengths, pageSize, perm, rows)
  {
    assert |perm| >= 2;
    pages := seq(|perm|, g requires 0 <= g < |perm| =>
      seq(pageSize, j requires 0 <= j < pageSize => StoredRow(lengths, pageSize, perm, rows, width, g, j)));
    forall s, p | 0 <= s < |lengths| && 0 <= p < |rows[s]|
      ensures StoredAt(pages, lengths, pageSize, perm, rows, s, p)
    {
      RowIsStored(lengths, pageSize, maxPages, perm, rows, width, s, p);
    }
  }

  lemma RowIsStored(lengths: seq<nat>, pageSize: nat, maxPages: nat, perm: seq<nat>, rows: seq<seq<Vector>>, width: nat,
                    s: nat, p: nat)
    requires pageSize >= 1 && Permutation(perm) && |perm| == |lengths| * maxPages + 2 && |rows| == |lengths|
    requires forall i :: 0 <= i < |lengths| ==> |rows[i]| == lengths[i] <= maxPages * pageSize && Rows(rows[i], width)
    requires s < |lengths| && p < |rows[s]|
    ensures perm != [] && TableEntry(lengths, pageSize, perm, s, p / pageSize) < |perm| && p % pageSize < pageSize
    ensures StoredRow(lengths, pageSize, perm, rows, width, TableEntry(lengths, pageSize, perm, s, p / pageSize),
                      p % pageSize) == rows[s][p]
  {
    hide TableEntry, Permutation, PagesFor;
    assert |perm| >= 2;
    LivePagesDistinct(lengths, pageSize, maxPages, perm, s, p / pageSize, s, p / pageSize);
    var page, slot := TableEntry(lengths, pageSize, perm, s, p / pageSize), p % pageSize;
    assert IsSlotOf(lengths, pageSize, perm, page, slot, s, p);
    forall s': nat, p': nat | IsSlotOf(lengths, pageSize, perm, page, slot, s', p') ensures s' == s && p' == p {
      SlotsAreDistinct(lengths, pageSize, maxPages, perm, page, slot, s, p, s', p');
    }
  }

  /** A table row as the maker writes it. */
  function MadeTable(lengths: seq<nat>, pageSize: nat, maxPages: nat, perm: seq<nat>, s: nat): (table: seq<nat>)
    requires pageSize >= 1 && s < |lengths| && perm != []
    ensures |table| == maxPages
  {
    seq(maxPages, pi requires 0 <= pi < maxPages => TableEntry(lengths, pageSize, perm, s, pi))
  }

  /** What is stored through a maker's table is laid out by it. */
  lemma StoredIsLaidOut(c: Cache, pages: seq<seq<Vector>>, lengths: seq<nat>, perm: seq<nat>, rows: seq<seq<Vector>>,
                        s: nat)
    requires c.HeadShaped(pages) && c.pageSize >= 1 && perm != [] && |rows| == |lengths| && s < |lengths|
    requires Stored(pages, lengths, c.pageSize, perm, rows) && |rows[s]| <= c.maxPages * c.pageSize
    requires c.TableShaped(MadeTable(lengths, c.pageSize, c.maxPages, perm, s))
    ensures LaidOut(c, pages, MadeTable(lengths, c.pageSize, c.maxPages, perm, s), rows[s])
  {
    hide TableEntry;
    var table := MadeTable(lengths, c.pageSize, c.maxPages, perm, s);
    forall p | 0 <= p < |rows[s]|
      ensures 0 <= p / c.pageSize < c.maxPages && rows[s][p] == pages[table[p / c.pageSize]][p % c.pageSize]
    {
      ScaleMonotone(c.maxPages, p / c.pageSize, c.pageSize);
      assert StoredAt(pages, lengths, c.pageSize, perm, rows, s, p);
    }
  }

  /** Making the tables and decoding through them is dense attention over whatever sequences the
      pages hold. */
  method MadeTablesMatchDense(exp: real -> real, held: Cache, lengths: seq<nat>, perm: seq<nat>, q: seq<seq<Vector>>,
                              numHeads: nat, scale: real, ghost ks: seq<Tensor>, ghost vs: seq<Tensor>)
    returns (c: Cache, out: array2<Vector>)
    requires PositiveFunction(exp) && held.Valid() && held.tables == [] && HeadsGrouped(numHeads, held.kvHeads)
    requires Permutation(perm) && |perm| == held.numPages == |lengths| * held.maxPages + 2
    requires forall s :: 0 <= s < |lengths| ==> 1 <= lengths[s] <= held.maxPages * held.pageSize
    requires Queries2(q, |lengths|, numHeads, held.width) && |ks| == |vs| == |lengths|
    requires forall s :: 0 <= s < |lengths| ==> |ks[s]| == |vs[s]| == held.kvHeads
    requires forall s, kv :: 0 <= s < |lengths| && 0 <= kv < held.kvHeads ==> |ks[s][kv]| == |vs[s][kv]| == lengths[s]
    requires forall kv :: 0 <= kv < held.kvHeads ==>
      && Stored(held.kPages[kv], lengths, held.pageSize, perm,
                seq(|lengths|, s requires 0 <= s < |lengths| => ks[s][kv]))
      && Stored(held.vPages[kv], lengths, held.pageSize, perm,
                seq(|lengths|, s requires 0 <= s < |lengths| => vs[s][kv]))
    ensures c.Valid() && AllLaidOut(c, ks, vs) && c == held.(tables := c.tables, lengths := lengths)
    ensures out.Length0 == |lengths| && out.Length1 == numHeads
    ensures forall s, h :: 0 <= s < |lengths| && 0 <= h < numHeads ==>
      out[s, h] == DenseOver(exp, c, s, SingleRows(q[s]), ks[s], vs[s], scale, false, numHeads, 1)[h][0]
  {
    hide TableEntry, Stored, LaidOut;
    var made := MakeTables(lengths, held.pageSize, held.maxPages, perm);
    var tables := [];
    for s := 0 to |lengths|
      invariant |tables| == s
      invariant forall i :: 0 <= i < s ==> tables[i] == MadeTable(lengths, held.pageSize, held.maxPages, perm, i)
    {
      var row := seq(held.maxPages, pi requires 0 <= pi < held.maxPages reads made => made[s, pi]);
      assert row == MadeTable(lengths, held.pageSize, held.maxPages, perm, s);
      tables := tables + [row];
    }
    c := held.(tables := tables, lengths := lengths);
    forall s | 0 <= s < |lengths| ensures c.TableShaped(tables[s]) {
      forall pi | 0 <= pi < c.maxPages ensures tables[s][pi] < c.numPages {
        LivePagesDistinct(lengths, c.pageSize, c.maxPages, perm, s, pi, s, pi);
      }
    }
    forall s | 0 <= s < |lengths| ensures SequenceLaidOut(c, s, ks[s], vs[s]) {
      forall kv | 0 <= kv < c.kvHeads
        ensures LaidOut(c, c.kPages[kv], c.tables[s], ks[s][kv]) && LaidOut(c, c.vPages[kv], c.tables[s], vs[s][kv])
      {
        StoredIsLaidOut(c, c.kPages[kv], lengths, perm, seq(|lengths|, i requires 0 <= i < |lengths| => ks[i][kv]), s);
        StoredIsLaidOut(c, c.vPages[kv], lengths, perm, seq(|lengths|, i requires 0 <= i < |lengths| => vs[i][kv]), s);
      }
    }
    out := PagedMatchesDense(exp, c, q, numHeads, scale, ks, vs);
  }
}
