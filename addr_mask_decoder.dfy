/** The address decoder of src/1_digital/quantum/tech_ind/addr_mask_decoder.cpp: it
  * turns the first operation of a bundle, addressed by a mask or by a register's
  * qubit list, into one hardwired operation per qubit. */
module AddrMaskDecoder {
  import opened Wrappers
  import opened GenericIf
  import ConfigReader
  import ClassicalExecute

  // ------------------------------------------------------------------ one lane

  /** The bundle's operation placed on a hardwired lane: the interface's timing and
    * the HARDWIRE content type; everything else is copied. */
  function Hardwired(qop: FledgedQop, timing: TimingInfo): FledgedQop
  {
    qop.(timing := timing, addr := qop.addr.(addrType := qop.addr.addrType.(cType := Hardwire)))
  }

  function WithIndices(q: FledgedQop, indices: seq<nat>): FledgedQop
  {
    q.(addr := q.addr.(sqOpAddr := q.addr.sqOpAddr.(qubitIndices := indices)))
  }

  function WithTuples(q: FledgedQop, tuples: seq<seq<nat>>): FledgedQop
  {
    q.(addr := q.addr.(mqOpAddr := q.addr.mqOpAddr.(qubitTuples := tuples)))
  }

  /** A lane holds a hardwired copy of `qop`: the same operation and register number,
    * the interface timing, HARDWIRE addressing of the same arity. */
  predicate CopyOf(o: FledgedQop, qop: FledgedQop, timing: TimingInfo)
  {
    o.op == qop.op && o.timing == timing && o.addr.indirectAddrRegNum == qop.addr.indirectAddrRegNum &&
    o.addr.addrType == QAddrType(Hardwire, qop.addr.addrType.qNumType)
  }

  /** A hardwired copy is valid exactly when the bundle's operation is. */
  lemma CopyKeepsValidity(o: FledgedQop, qop: FledgedQop, timing: TimingInfo)
    requires CopyOf(o, qop, timing)
    ensures o.IsValid() <==> qop.IsValid()
  {
  }

  /** `vec_qop[i].reset()` for every lane at the start of a cycle. */
  function Cleared(vec: seq<FledgedQop>): (r: seq<FledgedQop>)
    ensures |r| == |vec| && forall q :: 0 <= q < |r| ==> !r[q].IsValid() && r[q] == ResetQop(vec[q])
  {
    seq(|vec|, q requires 0 <= q < |vec| => ResetQop(vec[q]))
  }

  // ------------------------------------------------------------------ REG_NUM, SINGLE

  /** The lane a set bit `q` of a single-qubit mask writes: a hardwired copy whose
    * index list gains `q`. */
  function SingleLane(qop: FledgedQop, timing: TimingInfo, q: nat): FledgedQop
  {
    WithIndices(Hardwired(qop, timing), qop.addr.sqOpAddr.qubitIndices + [q])
  }

  /** The mask bits from `b` upwards, below the mask's width, applied to the lanes; a
    * set bit with no lane of its own aborts (the source writes past `vec_qop`). */
  function MaskSingleFrom(v: seq<FledgedQop>, qop: FledgedQop, timing: TimingInfo, b: nat): Result<seq<FledgedQop>, string>
    decreases qop.addr.sqOpAddr.mask.width - b
  {
    var m := qop.addr.sqOpAddr.mask;
    if b >= m.width then Success(v)
    else if !ClassicalExecute.Bit(m.value, b) then MaskSingleFrom(v, qop, timing, b + 1)
    else if b >= |v| then Failure("bad mask bit")
    else MaskSingleFrom(v[b := SingleLane(qop, timing, b)], qop, timing, b + 1)
  }

  /** Every set bit of the mask from `b` on is below `n`. */
  predicate SetBitsBelow(m: SimUint, b: nat, n: nat)
  {
    forall k :: b <= k < m.width && ClassicalExecute.Bit(m.value, k) ==> k < n
  }

  /** Bit `q` of a single-qubit mask selects lane `q`: the mask decodes iff every set
    * bit names a qubit, and then exactly the lanes of the set bits hold a hardwired
    * copy with their own index appended; the others are untouched. */
  lemma {:induction false} MaskSingleMeaning(v: seq<FledgedQop>, qop: FledgedQop, timing: TimingInfo, b: nat)
    ensures MaskSingleFrom(v, qop, timing, b).Success? <==> SetBitsBelow(qop.addr.sqOpAddr.mask, b, |v|)
    ensures var m := qop.addr.sqOpAddr.mask; var r := MaskSingleFrom(v, qop, timing, b);
      r.Success? ==> (|r.value| == |v| &&
        forall q :: 0 <= q < |v| ==>
          r.value[q] == if b <= q < m.width && ClassicalExecute.Bit(m.value, q) then SingleLane(qop, timing, q) else v[q])
    decreases qop.addr.sqOpAddr.mask.width - b
  {
    var m := qop.addr.sqOpAddr.mask;
    if b < m.width {
      if !ClassicalExecute.Bit(m.value, b) {
        MaskSingleMeaning(v, qop, timing, b + 1);
      } else if b < |v| {
        var w := v[b := SingleLane(qop, timing, b)];
        MaskSingleMeaning(w, qop, timing, b + 1);
        var r := MaskSingleFrom(v, qop, timing, b);
        assert r == MaskSingleFrom(w, qop, timing, b + 1);
        assert |w| == |v|;
        assert SetBitsBelow(m, b, |v|) <==> SetBitsBelow(m, b + 1, |v|);
        if r.Success? {
          forall q | 0 <= q < |v|
            ensures r.value[q] == if b <= q < m.width && ClassicalExecute.Bit(m.value, q) then SingleLane(qop, timing, q) else v[q]
          {
            if q != b {
              assert w[q] == v[q];
            }
          }
        }
      } else {
        assert !SetBitsBelow(m, b, |v|);
      }
    }
  }

  /** The loop over the mask bits. */
  method DecodeSingleMask(v0: seq<FledgedQop>, qop: FledgedQop, timing: TimingInfo) returns (r: Result<seq<FledgedQop>, string>)
    ensures r == MaskSingleFrom(v0, qop, timing, 0)
  {
    var v := v0;
    var b := 0;
    while b < qop.addr.sqOpAddr.mask.width
      invariant MaskSingleFrom(v, qop, timing, b) == MaskSingleFrom(v0, qop, timing, 0)
      decreases qop.addr.sqOpAddr.mask.width - b
    {
      if ClassicalExecute.Bit(qop.addr.sqOpAddr.mask.value, b) {
        if b >= |v| {
          return Failure("bad mask bit");
        }
        v := v[b := SingleLane(qop, timing, b)];
      }
      b := b + 1;
    }
    r := Success(v);
  }

  // ------------------------------------------------------------------ REG_NUM, MULTIPLE

  /** The first qubit, from `j` on, whose edge list holds edge `e`. */
  function FirstContaining(lists: seq<seq<nat>>, e: nat, j: nat): (r: Option<nat>)
    ensures r.Some? ==> j <= r.value < |lists| && e in lists[r.value] &&
                        forall m :: j <= m < r.value ==> e !in lists[m]
    ensures r.None? ==> forall m :: j <= m < |lists| ==> e !in lists[m]
    decreases |lists| - j
  {
    if j >= |lists| then None
    else if e in lists[j] then Some(j)
    else FirstContaining(lists, e, j + 1)
  }

  /** The search of one edge list set (`std::find` over each qubit's list). */
  method FindEdgeEnd(lists: seq<seq<nat>>, e: nat) returns (r: Option<nat>)
    ensures r == FirstContaining(lists, e, 0)
  {
    var j := 0;
    while j < |lists|
      invariant 0 <= j <= |lists| && FirstContaining(lists, e, j) == FirstContaining(lists, e, 0)
    {
      if e in lists[j] {
        return Some(j);
      }
      j := j + 1;
    }
    r := None;
  }

  /** Over the lists of the configured topology, edge `e` is found at its source among
    * the out-lists and at its target among the in-lists; an edge index beyond the
    * configured ones is found nowhere. */
  lemma FirstContainingSpread(edges: seq<ConfigReader.Edge>, k: nat, size: nat, outgoing: bool, e: nat)
    requires k <= |edges| && ConfigReader.EndpointsBelow(edges, size)
    ensures e < k ==> FirstContaining(ConfigReader.Spread(edges, k, size, outgoing), e, 0) ==
                      Some(ConfigReader.End(edges[e], outgoing) as nat)
    ensures e >= k ==> FirstContaining(ConfigReader.Spread(edges, k, size, outgoing), e, 0) == None
  {
    var lists := ConfigReader.Spread(edges, k, size, outgoing);
    var r := FirstContaining(lists, e, 0);
    if r.Some? {
      ConfigReader.SpreadMembers(edges, k, size, outgoing, r.value, e);
    }
    if e < k {
      var q := ConfigReader.End(edges[e], outgoing);
      ConfigReader.SpreadMembers(edges, k, size, outgoing, q as nat, e);
    }
  }

  /** The two ends of the edge a mask bit selects, when both are found and are qubits. */
  predicate PairFits(outs: seq<seq<nat>>, ins: seq<seq<nat>>, e: nat, n: nat)
  {
    FirstContaining(outs, e, 0).Some? && FirstContaining(ins, e, 0).Some? &&
    FirstContaining(outs, e, 0).value < n && FirstContaining(ins, e, 0).value < n
  }

  /** The writes of one mask bit, in the source's order: both ends receive the
    * hardwired copy, then each end's tuple list gains the pair. */
  function PairWrite(v: seq<FledgedQop>, qop: FledgedQop, timing: TimingInfo, l: nat, r: nat): (w: seq<FledgedQop>)
    requires l < |v| && r < |v|
    ensures |w| == |v|
  {
    var h := Hardwired(qop, timing);
    var v1 := v[l := h][r := h];
    var v2 := v1[l := WithTuples(v1[l], v1[l].addr.mqOpAddr.qubitTuples + [[l, r]])];
    v2[r := WithTuples(v2[r], v2[r].addr.mqOpAddr.qubitTuples + [[l, r]])]
  }

  /** The tuple list an end of a pair receives. */
  function PairLane(qop: FledgedQop, timing: TimingInfo, l: nat, r: nat): FledgedQop
  {
    WithTuples(Hardwired(qop, timing), qop.addr.mqOpAddr.qubitTuples + [[l, r]])
  }

  /** For two distinct ends, each holds the copy with the pair appended once, and no
    * other lane changes. */
  lemma PairWriteMeaning(v: seq<FledgedQop>, qop: FledgedQop, timing: TimingInfo, l: nat, r: nat)
    requires l < |v| && r < |v| && l != r
    ensures var w := PairWrite(v, qop, timing, l, r);
      w[l] == PairLane(qop, timing, l, r) && w[r] == PairLane(qop, timing, l, r) &&
      forall q :: 0 <= q < |v| && q != l && q != r ==> w[q] == v[q]
  {
  }

  /** The mask bits from `b` upwards applied to the lanes; a set bit whose edge has no
    * end, or whose ends are not qubits, aborts (the source would reuse a stale or
    * uninitialised qubit number). */
  function MaskMultiFrom(v: seq<FledgedQop>, qop: FledgedQop, timing: TimingInfo,
                         outs: seq<seq<nat>>, ins: seq<seq<nat>>, b: nat): Result<seq<FledgedQop>, string>
    decreases qop.addr.mqOpAddr.mask.width - b
  {
    var m := qop.addr.mqOpAddr.mask;
    if b >= m.width then Success(v)
    else if !ClassicalExecute.Bit(m.value, b) then MaskMultiFrom(v, qop, timing, outs, ins, b + 1)
    else if !PairFits(outs, ins, b, |v|) then Failure("no such edge")
    else
      var l := FirstContaining(outs, b, 0).value;
      var r := FirstContaining(ins, b, 0).value;
      MaskMultiFrom(PairWrite(v, qop, timing, l, r), qop, timing, outs, ins, b + 1)
  }

  /** A lane written for a pair: a hardwired copy whose last tuple holds the lane. */
  predicate PairCopy(o: FledgedQop, qop: FledgedQop, timing: TimingInfo, q: nat)
  {
    CopyOf(o, qop, timing) && |o.addr.mqOpAddr.qubitTuples| > 0 &&
    q in o.addr.mqOpAddr.qubitTuples[|o.addr.mqOpAddr.qubitTuples| - 1]
  }

  /** One lane is an end of the edge mask bit `e` selects. */
  predicate EndOf(outs: seq<seq<nat>>, ins: seq<seq<nat>>, e: nat, q: nat)
  {
    FirstContaining(outs, e, 0) == Some(q) || FirstContaining(ins, e, 0) == Some(q)
  }

  /** Lane `q` is an end of the edge of some set mask bit from `b` on. */
  predicate Touched(m: SimUint, outs: seq<seq<nat>>, ins: seq<seq<nat>>, b: nat, q: nat)
  {
    exists e :: b <= e < m.width && ClassicalExecute.Bit(m.value, e) && EndOf(outs, ins, e, q)
  }

  lemma TouchedStep(m: SimUint, outs: seq<seq<nat>>, ins: seq<seq<nat>>, b: nat, q: nat)
    requires b < m.width
    ensures Touched(m, outs, ins, b, q) <==>
      (ClassicalExecute.Bit(m.value, b) && EndOf(outs, ins, b, q)) || Touched(m, outs, ins, b + 1, q)
  {
    if Touched(m, outs, ins, b, q) && !(ClassicalExecute.Bit(m.value, b) && EndOf(outs, ins, b, q)) {
      var e :| b <= e < m.width && ClassicalExecute.Bit(m.value, e) && EndOf(outs, ins, e, q);
      assert e != b;
    }
  }

  /** A multi-qubit mask decodes iff every set bit selects an edge between two qubits;
    * then a lane that is an end of no selected edge is untouched, and every other lane
    * holds a hardwired copy whose last tuple is a pair containing it (which pair is
    * stated by `MaskMultiLastWins`). */
  lemma {:induction false} MaskMultiMeaning(v: seq<FledgedQop>, qop: FledgedQop, timing: TimingInfo,
                                            outs: seq<seq<nat>>, ins: seq<seq<nat>>, b: nat)
    ensures var m := qop.addr.mqOpAddr.mask;
      MaskMultiFrom(v, qop, timing, outs, ins, b).Success? <==>
        forall e :: b <= e < m.width && ClassicalExecute.Bit(m.value, e) ==> PairFits(outs, ins, e, |v|)
    ensures var m := qop.addr.mqOpAddr.mask; var r := MaskMultiFrom(v, qop, timing, outs, ins, b);
      r.Success? ==> (|r.value| == |v| &&
        forall q :: 0 <= q < |v| ==>
          if Touched(m, outs, ins, b, q) then PairCopy(r.value[q], qop, timing, q) else r.value[q] == v[q])
    decreases qop.addr.mqOpAddr.mask.width - b
  {
    var m := qop.addr.mqOpAddr.mask;
    if b < m.width {
      forall q ensures Touched(m, outs, ins, b, q) <==>
          (ClassicalExecute.Bit(m.value, b) && EndOf(outs, ins, b, q)) || Touched(m, outs, ins, b + 1, q) {
        TouchedStep(m, outs, ins, b, q);
      }
      if !ClassicalExecute.Bit(m.value, b) {
        MaskMultiMeaning(v, qop, timing, outs, ins, b + 1);
      } else if PairFits(outs, ins, b, |v|) {
        var l := FirstContaining(outs, b, 0).value;
        var rr := FirstContaining(ins, b, 0).value;
        var w := PairWrite(v, qop, timing, l, rr);
        MaskMultiMeaning(w, qop, timing, outs, ins, b + 1);
        PairWriteFacts(v, qop, timing, l, rr);
        assert EndOf(outs, ins, b, l) && EndOf(outs, ins, b, rr);
      }
    }
  }

  /** What `PairWrite` does to each lane, for equal ends as well. */
  lemma PairWriteFacts(v: seq<FledgedQop>, qop: FledgedQop, timing: TimingInfo, l: nat, r: nat)
    requires l < |v| && r < |v|
    ensures var w := PairWrite(v, qop, timing, l, r);
      PairCopy(w[l], qop, timing, l) && PairCopy(w[r], qop, timing, r) &&
      forall q :: 0 <= q < |v| && q != l && q != r ==> w[q] == v[q]
  {
  }

  /** The lane an end of a pair receives; a self-loop edge appends its pair twice, as
    * the source's two appends then land on the same lane. */
  function EndLane(qop: FledgedQop, timing: TimingInfo, l: nat, r: nat): FledgedQop
  {
    if l == r then WithTuples(Hardwired(qop, timing), qop.addr.mqOpAddr.qubitTuples + [[l, r], [l, r]])
    else PairLane(qop, timing, l, r)
  }

  /** Both ends of a written pair hold `EndLane`. */
  lemma PairWriteEnds(v: seq<FledgedQop>, qop: FledgedQop, timing: TimingInfo, l: nat, r: nat)
    requires l < |v| && r < |v|
    ensures var w := PairWrite(v, qop, timing, l, r);
      w[l] == EndLane(qop, timing, l, r) && w[r] == EndLane(qop, timing, l, r)
  {
    if l == r {
      var h := Hardwired(qop, timing);
      assert h.addr.mqOpAddr.qubitTuples == qop.addr.mqOpAddr.qubitTuples;
      assert qop.addr.mqOpAddr.qubitTuples + [[l, r]] + [[l, r]] == qop.addr.mqOpAddr.qubitTuples + [[l, r], [l, r]];
    } else {
      PairWriteMeaning(v, qop, timing, l, r);
    }
  }

  /** Later mask bits overwrite earlier ones: a lane holds the pair of the LAST set bit
    * whose edge ends at it, with that edge's source and target in this order. */
  lemma {:induction false} MaskMultiLastWins(v: seq<FledgedQop>, qop: FledgedQop, timing: TimingInfo,
                                             outs: seq<seq<nat>>, ins: seq<seq<nat>>, b: nat)
    ensures var m := qop.addr.mqOpAddr.mask; var r := MaskMultiFrom(v, qop, timing, outs, ins, b);
      r.Success? ==> (|r.value| == |v| &&
        forall q, e :: (0 <= q < |v| && b <= e < m.width && ClassicalExecute.Bit(m.value, e) &&
                        EndOf(outs, ins, e, q) && PairFits(outs, ins, e, |v|) &&
                        (forall e' :: e < e' < m.width && ClassicalExecute.Bit(m.value, e') ==>
                           !EndOf(outs, ins, e', q))) ==>
          r.value[q] == EndLane(qop, timing, FirstContaining(outs, e, 0).value, FirstContaining(ins, e, 0).value))
    decreases qop.addr.mqOpAddr.mask.width - b
  {
    var m := qop.addr.mqOpAddr.mask;
    var r := MaskMultiFrom(v, qop, timing, outs, ins, b);
    if b < m.width && r.Success? {
      if !ClassicalExecute.Bit(m.value, b) {
        MaskMultiLastWins(v, qop, timing, outs, ins, b + 1);
      } else {
        var l := FirstContaining(outs, b, 0).value;
        var rr := FirstContaining(ins, b, 0).value;
        var w := PairWrite(v, qop, timing, l, rr);
        MaskMultiLastWins(w, qop, timing, outs, ins, b + 1);
        MaskMultiMeaning(w, qop, timing, outs, ins, b + 1);
        PairWriteEnds(v, qop, timing, l, rr);
        forall q | 0 <= q < |v| && EndOf(outs, ins, b, q) &&
            (forall e' :: b < e' < m.width && ClassicalExecute.Bit(m.value, e') ==> !EndOf(outs, ins, e', q))
          ensures r.value[q] == EndLane(qop, timing, l, rr)
        {
          assert !Touched(m, outs, ins, b + 1, q);
        }
      }
    }
  }

  /** The loop over the mask bits, with the two edge-list searches. */
  method DecodeMultiMask(v0: seq<FledgedQop>, qop: FledgedQop, timing: TimingInfo,
                         outs: seq<seq<nat>>, ins: seq<seq<nat>>) returns (r: Result<seq<FledgedQop>, string>)
    ensures r == MaskMultiFrom(v0, qop, timing, outs, ins, 0)
  {
    var v := v0;
    var b := 0;
    while b < qop.addr.mqOpAddr.mask.width
      invariant MaskMultiFrom(v, qop, timing, outs, ins, b) == MaskMultiFrom(v0, qop, timing, outs, ins, 0)
      decreases qop.addr.mqOpAddr.mask.width - b
    {
      if ClassicalExecute.Bit(qop.addr.mqOpAddr.mask.value, b) {
        var left := FindEdgeEnd(outs, b);
        var right := FindEdgeEnd(ins, b);
        if left.None? || right.None? || left.value >= |v| || right.value >= |v| {
          return Failure("no such edge");
        }
        v := PairWrite(v, qop, timing, left.value, right.value);
      }
      b := b + 1;
    }
    r := Success(v);
  }

  // ------------------------------------------------------------------ REG_CONTENT

  /** The lane qubit `q` of a register's list receives: the copy with `[q]` as its list. */
  function ContentLane(qop: FledgedQop, timing: TimingInfo, q: nat): FledgedQop
  {
    WithIndices(Hardwired(qop, timing), [q])
  }

  /** The qubits of the list from position `k` on applied to the lanes; a qubit with
    * no lane aborts. */
  function ContentSingleFrom(v: seq<FledgedQop>, qop: FledgedQop, timing: TimingInfo, k: nat): Result<seq<FledgedQop>, string>
    decreases |qop.addr.sqOpAddr.qubitIndices| - k
  {
    var l := qop.addr.sqOpAddr.qubitIndices;
    if k >= |l| then Success(v)
    else if l[k] >= |v| then Failure("bad qubit")
    else ContentSingleFrom(v[l[k] := ContentLane(qop, timing, l[k])], qop, timing, k + 1)
  }

  /** A register's qubit list decodes iff every qubit in it has a lane; then exactly
    * the listed lanes hold the copy with their own index. */
  lemma {:induction false} ContentSingleMeaning(v: seq<FledgedQop>, qop: FledgedQop, timing: TimingInfo, k: nat)
    ensures var l := qop.addr.sqOpAddr.qubitIndices;
      ContentSingleFrom(v, qop, timing, k).Success? <==> forall j :: k <= j < |l| ==> l[j] < |v|
    ensures var l := qop.addr.sqOpAddr.qubitIndices; var r := ContentSingleFrom(v, qop, timing, k);
      r.Success? ==> (|r.value| == |v| &&
        forall q :: 0 <= q < |v| ==> r.value[q] == if Listed(l, k, q) then ContentLane(qop, timing, q) else v[q])
    decreases |qop.addr.sqOpAddr.qubitIndices| - k
  {
    var l := qop.addr.sqOpAddr.qubitIndices;
    if k < |l| && l[k] < |v| {
      var w := v[l[k] := ContentLane(qop, timing, l[k])];
      ContentSingleMeaning(w, qop, timing, k + 1);
      var r := ContentSingleFrom(v, qop, timing, k);
      if r.Success? {
        forall q | 0 <= q < |v|
          ensures r.value[q] == if Listed(l, k, q) then ContentLane(qop, timing, q) else v[q]
        {
          if Listed(l, k, q) && q != l[k] {
            var j :| k <= j < |l| && l[j] == q;
            assert Listed(l, k + 1, q);
          }
          if q != l[k] {
            assert w[q] == v[q];
          }
        }
      }
    }
  }

  /** Qubit `q` appears in the list from position `k` on. */
  predicate Listed(l: seq<nat>, k: nat, q: nat)
  {
    exists j :: k <= j < |l| && l[j] == q
  }

  /** `mock_meas` addresses every qubit, whatever the register held. */
  function MockExpanded(qop: FledgedQop, n: nat): (r: FledgedQop)
    ensures r == WithIndices(qop, r.addr.sqOpAddr.qubitIndices)
    ensures qop.op.name == "mock_meas" ==>
      |r.addr.sqOpAddr.qubitIndices| == n && forall j :: 0 <= j < n ==> r.addr.sqOpAddr.qubitIndices[j] == j
    ensures qop.op.name != "mock_meas" ==> r == qop
  {
    var all := seq(n, q requires 0 <= q => q as nat);
    if qop.op.name == "mock_meas" then WithIndices(qop, all) else qop
  }

  /** The loop over a register's qubit list. */
  method DecodeSingleContent(v0: seq<FledgedQop>, qop: FledgedQop, timing: TimingInfo) returns (r: Result<seq<FledgedQop>, string>)
    ensures r == ContentSingleFrom(v0, qop, timing, 0)
  {
    var v := v0;
    var k := 0;
    while k < |qop.addr.sqOpAddr.qubitIndices|
      invariant 0 <= k <= |qop.addr.sqOpAddr.qubitIndices|
      invariant ContentSingleFrom(v, qop, timing, k) == ContentSingleFrom(v0, qop, timing, 0)
    {
      var q := qop.addr.sqOpAddr.qubitIndices[k];
      if q >= |v| {
        return Failure("bad qubit");
      }
      v := v[q := ContentLane(qop, timing, q)];
      k := k + 1;
    }
    r := Success(v);
  }

  /** The lane either end of pair `(l, r)` receives: the copy with that single pair. */
  function TupleLane(qop: FledgedQop, timing: TimingInfo, l: nat, r: nat): FledgedQop
  {
    WithTuples(Hardwired(qop, timing), [[l, r]])
  }

  /** The pairs of the list from position `k` on applied to the lanes; a tuple with
    * fewer than two qubits, or a qubit with no lane, aborts. */
  function ContentMultiFrom(v: seq<FledgedQop>, qop: FledgedQop, timing: TimingInfo, k: nat): Result<seq<FledgedQop>, string>
    decreases |qop.addr.mqOpAddr.qubitTuples| - k
  {
    var ts := qop.addr.mqOpAddr.qubitTuples;
    if k >= |ts| then Success(v)
    else if |ts[k]| < 2 || ts[k][0] >= |v| || ts[k][1] >= |v| then Failure("bad qubit pair")
    else
      var l := ts[k][0];
      var r := ts[k][1];
      ContentMultiFrom(v[l := TupleLane(qop, timing, l, r)][r := TupleLane(qop, timing, l, r)], qop, timing, k + 1)
  }

  /** A tuple whose first two entries name lanes. */
  predicate TupleFits(t: seq<nat>, n: nat)
  {
    |t| >= 2 && t[0] < n && t[1] < n
  }

  /** Tuple `t` names qubit `q` as one of its two lanes. */
  predicate Names(t: seq<nat>, q: nat)
  {
    |t| >= 2 && (t[0] == q || t[1] == q)
  }

  /** Later tuples overwrite earlier ones: a lane named by no tuple from `k` on keeps its
    * value, and a named lane holds the copy with the pair of the LAST tuple naming it. */
  lemma {:induction false} ContentMultiLastWins(v: seq<FledgedQop>, qop: FledgedQop, timing: TimingInfo, k: nat)
    ensures var ts := qop.addr.mqOpAddr.qubitTuples; var r := ContentMultiFrom(v, qop, timing, k);
      r.Success? ==> (|r.value| == |v| &&
        (forall q :: 0 <= q < |v| && (forall j :: k <= j < |ts| ==> !Names(ts[j], q)) ==> r.value[q] == v[q]) &&
        (forall q, j :: (0 <= q < |v| && k <= j < |ts| && Names(ts[j], q) &&
                        (forall j' :: j < j' < |ts| ==> !Names(ts[j'], q))) ==>
           r.value[q] == TupleLane(qop, timing, ts[j][0], ts[j][1])))
    decreases |qop.addr.mqOpAddr.qubitTuples| - k
  {
    var ts := qop.addr.mqOpAddr.qubitTuples;
    var r := ContentMultiFrom(v, qop, timing, k);
    if k < |ts| && TupleFits(ts[k], |v|) && r.Success? {
      var l := ts[k][0];
      var rr := ts[k][1];
      var w := v[l := TupleLane(qop, timing, l, rr)][rr := TupleLane(qop, timing, l, rr)];
      ContentMultiLastWins(w, qop, timing, k + 1);
      forall q | 0 <= q < |v| && (forall j :: k <= j < |ts| ==> !Names(ts[j], q))
        ensures r.value[q] == v[q]
      {
        assert !Names(ts[k], q);
      }
      forall q, j | 0 <= q < |v| && k <= j < |ts| && Names(ts[j], q) && (forall j' :: j < j' < |ts| ==> !Names(ts[j'], q))
        ensures r.value[q] == TupleLane(qop, timing, ts[j][0], ts[j][1])
      {
        if j == k {
          assert w[q] == TupleLane(qop, timing, l, rr);
        }
      }
    }
  }

  /** A register's pair list decodes iff every tuple names two lanes; then a lane named
    * by no tuple is untouched, a named lane holds the copy with one pair, a pair of the
    * list that contains it, and that pair is the one of the last tuple naming the lane. */
  lemma {:induction false} ContentMultiMeaning(v: seq<FledgedQop>, qop: FledgedQop, timing: TimingInfo, k: nat)
    ensures var ts := qop.addr.mqOpAddr.qubitTuples;
      ContentMultiFrom(v, qop, timing, k).Success? <==> forall j :: k <= j < |ts| ==> TupleFits(ts[j], |v|)
    ensures var ts := qop.addr.mqOpAddr.qubitTuples; var r := ContentMultiFrom(v, qop, timing, k);
      r.Success? ==> (|r.value| == |v| &&
        forall q :: 0 <= q < |v| ==>
          r.value[q] == v[q] ||
          exists j :: k <= j < |ts| && |ts[j]| >= 2 && q in ts[j][..2] && r.value[q] == TupleLane(qop, timing, ts[j][0], ts[j][1]))
    ensures var ts := qop.addr.mqOpAddr.qubitTuples; var r := ContentMultiFrom(v, qop, timing, k);
      r.Success? ==>
        (forall q :: 0 <= q < |v| && (forall j :: k <= j < |ts| ==> !Names(ts[j], q)) ==> r.value[q] == v[q]) &&
        (forall q, j :: (0 <= q < |v| && k <= j < |ts| && Names(ts[j], q) &&
                        (forall j' :: j < j' < |ts| ==> !Names(ts[j'], q))) ==>
           r.value[q] == TupleLane(qop, timing, ts[j][0], ts[j][1]))
    decreases |qop.addr.mqOpAddr.qubitTuples| - k
  {
    ContentMultiLastWins(v, qop, timing, k);
    var ts := qop.addr.mqOpAddr.qubitTuples;
    if k < |ts| && TupleFits(ts[k], |v|) {
      var l := ts[k][0];
      var rr := ts[k][1];
      var w := v[l := TupleLane(qop, timing, l, rr)][rr := TupleLane(qop, timing, l, rr)];
      ContentMultiMeaning(w, qop, timing, k + 1);
      var r := ContentMultiFrom(v, qop, timing, k);
      if r.Success? {
        forall q | 0 <= q < |v|
          ensures r.value[q] == v[q] ||
            exists j :: k <= j < |ts| && |ts[j]| >= 2 && q in ts[j][..2] && r.value[q] == TupleLane(qop, timing, ts[j][0], ts[j][1])
        {
          if r.value[q] != w[q] {
            var j :| k + 1 <= j < |ts| && |ts[j]| >= 2 && q in ts[j][..2] && r.value[q] == TupleLane(qop, timing, ts[j][0], ts[j][1]);
          } else if q == l || q == rr {
            assert q in ts[k][..2];
          }
        }
      }
    }
  }

  /** The loop over a register's pair list. */
  method DecodeMultiContent(v0: seq<FledgedQop>, qop: FledgedQop, timing: TimingInfo) returns (r: Result<seq<FledgedQop>, string>)
    ensures r == ContentMultiFrom(v0, qop, timing, 0)
  {
    var v := v0;
    var k := 0;
    while k < |qop.addr.mqOpAddr.qubitTuples|
      invariant 0 <= k <= |qop.addr.mqOpAddr.qubitTuples|
      invariant ContentMultiFrom(v, qop, timing, k) == ContentMultiFrom(v0, qop, timing, 0)
    {
      var t := qop.addr.mqOpAddr.qubitTuples[k];
      if |t| < 2 || t[0] >= |v| || t[1] >= |v| {
        return Failure("bad qubit pair");
      }
      v := v[t[0] := TupleLane(qop, timing, t[0], t[1])][t[1] := TupleLane(qop, timing, t[0], t[1])];
      k := k + 1;
    }
    r := Success(v);
  }

  // ------------------------------------------------------------------ one cycle

  /** The lanes after a cycle without reset, from the cleared lanes: only a bundle with
    * a valid operation writes any, and only when that operation is addressed through a
    * register; an empty operation list under `valid_qop` aborts. */
  function Lanes(cleared: seq<FledgedQop>, i: QPipeInterface, outs: seq<seq<nat>>, ins: seq<seq<nat>>): Result<seq<FledgedQop>, string>
  {
    if !i.ifContent.validQop then Success(cleared)
    else if |i.ops| == 0 then Failure("no operation")
    else
      var qop := i.ops[0];
      match qop.addr.addrType.cType
      case IndirectRegNum =>
        if qop.addr.addrType.qNumType == Single then MaskSingleFrom(cleared, qop, i.timing, 0)
        else MaskMultiFrom(cleared, qop, i.timing, outs, ins, 0)
      case IndirectRegContent =>
        if qop.addr.addrType.qNumType == Single then ContentSingleFrom(cleared, MockExpanded(qop, |cleared|), i.timing, 0)
        else ContentMultiFrom(cleared, qop, i.timing, 0)
      case _ => Success(cleared)
  }

  /** Every decoded lane is either left cleared, and so invalid, or holds a hardwired
    * copy of the bundle's operation under the interface timing; there is one lane per
    * qubit. */
  lemma LanesAreCopies(vec: seq<FledgedQop>, i: QPipeInterface, outs: seq<seq<nat>>, ins: seq<seq<nat>>)
    ensures var c := Cleared(vec); var r := Lanes(c, i, outs, ins);
      r.Success? ==> (|r.value| == |vec| &&
        forall q :: 0 <= q < |vec| ==> !r.value[q].IsValid() || (i.ifContent.validQop && |i.ops| > 0 && CopyOf(r.value[q], i.ops[0], i.timing)))
  {
    var c := Cleared(vec);
    var r := Lanes(c, i, outs, ins);
    if r.Success? && i.ifContent.validQop {
      var qop := i.ops[0];
      if qop.addr.addrType.cType == IndirectRegNum {
        if qop.addr.addrType.qNumType == Single {
          MaskSingleMeaning(c, qop, i.timing, 0);
        } else {
          MaskMultiMeaning(c, qop, i.timing, outs, ins, 0);
        }
      } else if qop.addr.addrType.cType == IndirectRegContent {
        if qop.addr.addrType.qNumType == Single {
          ContentSingleMeaning(c, MockExpanded(qop, |c|), i.timing, 0);
        } else {
          ContentMultiMeaning(c, qop, i.timing, 0);
        }
      }
    }
  }

  /** A `mock_meas` addressed through a register reaches every qubit: each lane holds
    * the copy with its own index. */
  lemma MockMeasReachesEveryQubit(vec: seq<FledgedQop>, i: QPipeInterface, outs: seq<seq<nat>>, ins: seq<seq<nat>>)
    requires i.ifContent.validQop && |i.ops| > 0 && i.ops[0].op.name == "mock_meas"
    requires i.ops[0].addr.addrType == QAddrType(IndirectRegContent, Single)
    ensures var r := Lanes(Cleared(vec), i, outs, ins);
      r.Success? && |r.value| == |vec| &&
      forall q :: 0 <= q < |vec| ==> r.value[q] == ContentLane(MockExpanded(i.ops[0], |vec|), i.timing, q)
  {
    var c := Cleared(vec);
    var e := MockExpanded(i.ops[0], |c|);
    var l := e.addr.sqOpAddr.qubitIndices;
    ContentSingleMeaning(c, e, i.timing, 0);
    forall q | 0 <= q < |c| ensures Listed(l, 0, q) {
      assert l[q] == q;
    }
  }

  // ------------------------------------------------------------------ the default topology

  /** Bits 8 and 15 of 0x8100 are its only set bits below 16. */
  lemma MaskBits8100(b: nat)
    requires b < 16
    ensures ClassicalExecute.Bit(0x8100, b) <==> b == 8 || b == 15
  {
    if b >= 8 {
      var j := b - 8;
      assert ClassicalExecute.Bit(0x8100, b) == ClassicalExecute.Bit(0x4080, j + 7) == ClassicalExecute.Bit(0x2040, j + 6)
          == ClassicalExecute.Bit(0x1020, j + 5) == ClassicalExecute.Bit(0x810, j + 4) == ClassicalExecute.Bit(0x408, j + 3)
          == ClassicalExecute.Bit(0x204, j + 2) == ClassicalExecute.Bit(0x102, j + 1) == ClassicalExecute.Bit(0x81, j);
      SmallBits(0x81, j);
    } else {
      SmallBits(0x8100, b);
    }
  }

  /** The low bits of two small masks, one bit at a time. */
  lemma SmallBits(x: nat, j: nat)
    requires (x == 0x81 || x == 0x8100) && j < 8
    ensures ClassicalExecute.Bit(x, j) <==> x == 0x81 && (j == 0 || j == 7)
  {
    if j == 0 {
    } else if j == 1 {
    } else if j == 2 {
    } else if j == 3 {
    } else if j == 4 {
    } else if j == 5 {
    } else if j == 6 {
    } else {
    }
  }

  /** Zero mask bits are skipped. */
  lemma {:induction false} MaskMultiSkips(v: seq<FledgedQop>, qop: FledgedQop, timing: TimingInfo,
                                          outs: seq<seq<nat>>, ins: seq<seq<nat>>, b: nat, c: nat)
    requires b <= c <= qop.addr.mqOpAddr.mask.width
    requires forall e :: b <= e < c ==> !ClassicalExecute.Bit(qop.addr.mqOpAddr.mask.value, e)
    ensures MaskMultiFrom(v, qop, timing, outs, ins, b) == MaskMultiFrom(v, qop, timing, outs, ins, c)
    decreases c - b
  {
    if b < c {
      MaskMultiSkips(v, qop, timing, outs, ins, b + 1, c);
    }
  }

  /** Over edge lists that place edge 8 between qubits 0 and 2 and edge 15 between
    * qubits 4 and 6, the mask 0x8100 writes those two pairs, in that order. */
  lemma Mask8100Pairs(v: seq<FledgedQop>, qop: FledgedQop, timing: TimingInfo, outs: seq<seq<nat>>, ins: seq<seq<nat>>)
    requires |v| == 7 && qop.addr.mqOpAddr.mask == SimUint(0x8100, 16)
    requires FirstContaining(outs, 8, 0) == Some(0) && FirstContaining(ins, 8, 0) == Some(2)
    requires FirstContaining(outs, 15, 0) == Some(4) && FirstContaining(ins, 15, 0) == Some(6)
    ensures MaskMultiFrom(v, qop, timing, outs, ins, 0) ==
            Success(PairWrite(PairWrite(v, qop, timing, 0, 2), qop, timing, 4, 6))
  {
    forall e | 0 <= e < 16 ensures ClassicalExecute.Bit(0x8100, e) <==> e == 8 || e == 15 {
      MaskBits8100(e);
    }
    MaskMultiSkips(v, qop, timing, outs, ins, 0, 8);
    var w := PairWrite(v, qop, timing, 0, 2);
    assert MaskMultiFrom(v, qop, timing, outs, ins, 8) == MaskMultiFrom(w, qop, timing, outs, ins, 9);
    MaskMultiSkips(w, qop, timing, outs, ins, 9, 15);
    var x := PairWrite(w, qop, timing, 4, 6);
    assert MaskMultiFrom(w, qop, timing, outs, ins, 15) == MaskMultiFrom(x, qop, timing, outs, ins, 16);
  }

  /** The same, lane by lane. */
  lemma Mask8100Lanes(v: seq<FledgedQop>, qop: FledgedQop, timing: TimingInfo, outs: seq<seq<nat>>, ins: seq<seq<nat>>)
    requires |v| == 7 && qop.addr.mqOpAddr.mask == SimUint(0x8100, 16)
    requires FirstContaining(outs, 8, 0) == Some(0) && FirstContaining(ins, 8, 0) == Some(2)
    requires FirstContaining(outs, 15, 0) == Some(4) && FirstContaining(ins, 15, 0) == Some(6)
    ensures var r := MaskMultiFrom(v, qop, timing, outs, ins, 0);
      r.Success? && |r.value| == 7 &&
      r.value[0] == PairLane(qop, timing, 0, 2) && r.value[2] == PairLane(qop, timing, 0, 2) &&
      r.value[4] == PairLane(qop, timing, 4, 6) && r.value[6] == PairLane(qop, timing, 4, 6) &&
      r.value[1] == v[1] && r.value[3] == v[3] && r.value[5] == v[5]
  {
    Mask8100Pairs(v, qop, timing, outs, ins);
    var w := PairWrite(v, qop, timing, 0, 2);
    PairWriteMeaning(v, qop, timing, 0, 2);
    PairWriteMeaning(w, qop, timing, 4, 6);
  }

  /** In the default topology's edge lists, edge 8 runs from qubit 0 to qubit 2 and
    * edge 15 from qubit 4 to qubit 6. */
  lemma DefaultEdgeEnds(outs: seq<seq<nat>>, ins: seq<seq<nat>>)
    requires ConfigReader.EndpointsBelow(ConfigReader.DefaultEdges, 16)
    requires outs == ConfigReader.Spread(ConfigReader.DefaultEdges, 16, 16, true)
    requires ins == ConfigReader.Spread(ConfigReader.DefaultEdges, 16, 16, false)
    ensures FirstContaining(outs, 8, 0) == Some(0) && FirstContaining(ins, 8, 0) == Some(2)
    ensures FirstContaining(outs, 15, 0) == Some(4) && FirstContaining(ins, 15, 0) == Some(6)
  {
    FirstContainingSpread(ConfigReader.DefaultEdges, 16, 16, true, 8);
    FirstContainingSpread(ConfigReader.DefaultEdges, 16, 16, false, 8);
    FirstContainingSpread(ConfigReader.DefaultEdges, 16, 16, true, 15);
    FirstContainingSpread(ConfigReader.DefaultEdges, 16, 16, false, 15);
    assert ConfigReader.DefaultEdges[8] == (0, 2) && ConfigReader.DefaultEdges[15] == (4, 6);
  }

  /** On the default seven-qubit topology the two-qubit mask 0x8100 of the SMIT test
    * bundle selects edges 8 and 15, the pairs (0, 2) and (4, 6): exactly those four
    * lanes hold the operation, each with its pair. */
  lemma DefaultMask8100(v: seq<FledgedQop>, qop: FledgedQop, timing: TimingInfo, outs: seq<seq<nat>>, ins: seq<seq<nat>>)
    requires |v| == 7 && qop.addr.mqOpAddr.mask == SimUint(0x8100, 16)
    requires ConfigReader.EndpointsBelow(ConfigReader.DefaultEdges, 16)
    requires outs == ConfigReader.Spread(ConfigReader.DefaultEdges, 16, 16, true)
    requires ins == ConfigReader.Spread(ConfigReader.DefaultEdges, 16, 16, false)
    ensures var r := MaskMultiFrom(v, qop, timing, outs, ins, 0);
      r.Success? && |r.value| == 7 &&
      r.value[0] == PairLane(qop, timing, 0, 2) && r.value[2] == PairLane(qop, timing, 0, 2) &&
      r.value[4] == PairLane(qop, timing, 4, 6) && r.value[6] == PairLane(qop, timing, 4, 6) &&
      r.value[1] == v[1] && r.value[3] == v[3] && r.value[5] == v[5]
  {
    DefaultEdgeEnds(outs, ins);
    Mask8100Lanes(v, qop, timing, outs, ins);
  }

  // ------------------------------------------------------------------ the module

  /** The loop that resets every lane at the start of a cycle. */
  method ResetLanes(vec: seq<FledgedQop>) returns (v: seq<FledgedQop>)
    ensures v == Cleared(vec)
  {
    v := vec;
    var k := 0;
    while k < |vec|
      invariant 0 <= k <= |vec| && |v| == |vec|
      invariant forall j :: 0 <= j < |vec| ==> v[j] == if j < k then ResetQop(vec[j]) else vec[j]
    {
      v := v[k := ResetQop(v[k])];
      k := k + 1;
    }
  }

  /** `Address_decoder`: the qubit count and edge lists from the configuration, and
    * the hardwired operations `vec_qop`, which the thread keeps across cycles. */
  class AddressDecoder {
    const numQubits: nat
    const outEdgesOfQubit: seq<seq<nat>>
    const inEdgesOfQubit: seq<seq<nat>>
    var vecQop: seq<FledgedQop>

    predicate Valid()
      reads this
    {
      |vecQop| == numQubits
    }

    /** `config` and the thread's `vec_qop.resize`: default-constructed operations. */
    constructor (n: nat, outs: seq<seq<nat>>, ins: seq<seq<nat>>)
      ensures Valid() && numQubits == n && outEdgesOfQubit == outs && inEdgesOfQubit == ins
      ensures vecQop == seq(n, _ => DefaultQop)
    {
      numQubits := n;
      outEdgesOfQubit := outs;
      inEdgesOfQubit := ins;
      vecQop := seq(n, _ => DefaultQop);
    }

    /** `mask_decode`, one activation: the lanes are reset; under reset the emptied
      * interface carries them; otherwise the input interface carries the decoded
      * lanes, or the simulation aborts. */
    method MaskDecode(reset: bool, i: QPipeInterface) returns (r: Result<QPipeInterface, string>)
      requires Valid()
      modifies this
      ensures Valid()
      ensures reset ==> vecQop == Cleared(old(vecQop)) && r == Success(ResetInterface(i).(ops := vecQop))
      ensures !reset ==> var l := Lanes(Cleared(old(vecQop)), i, outEdgesOfQubit, inEdgesOfQubit);
        (r.Success? <==> l.Success?) &&
        (r.Success? ==> vecQop == l.value && r.value == i.(ops := vecQop))
    {
      var v := ResetLanes(vecQop);
      vecQop := v;
      if reset {
        return Success(ResetInterface(i).(ops := v));
      }
      if i.ifContent.validQop {
        if |i.ops| == 0 {
          return Failure("no operation");
        }
        var qop := i.ops[0];
        var lanes := Success(v);
        if qop.addr.addrType.cType == IndirectRegNum {
          if qop.addr.addrType.qNumType == Single {
            lanes := DecodeSingleMask(v, qop, i.timing);
          } else {
            lanes := DecodeMultiMask(v, qop, i.timing, outEdgesOfQubit, inEdgesOfQubit);
          }
        } else if qop.addr.addrType.cType == IndirectRegContent {
          if qop.addr.addrType.qNumType == Single {
            lanes := DecodeSingleContent(v, MockExpanded(qop, numQubits), i.timing);
          } else {
            lanes := DecodeMultiContent(v, qop, i.timing);
          }
        }
        if lanes.Failure? {
          return Failure(lanes.error);
        }
        LanesAreCopies(old(vecQop), i, outEdgesOfQubit, inEdgesOfQubit);
        v := lanes.value;
      }
      vecQop := v;
      r := Success(i.(ops := v));
    }
  }
}
