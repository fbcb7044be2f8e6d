/** The operation combiner of src/1_digital/quantum/tech_ind/operation_combiner.cpp: it
  * merges the per-qubit operations of the VLIW lanes into one interface, and merges
  * consecutive bundles that share a timing label before passing them on. */
module OperationCombiner {
  import opened Wrappers
  import opened GenericIf

  /** An interface with no content, default timing and type, and `n` default-constructed
    * operations: what `reset()` followed by `ops.resize(n)` leaves, with the given
    * VLIW width. */
  function Blank(vliwWidth: nat, n: nat): (r: QPipeInterface)
    ensures r.ifContent == NoContent && |r.ops| == n && r.vliwWidth == vliwWidth
    ensures forall j :: 0 <= j < n ==> !r.ops[j].IsValid()
  {
    QPipeInterface(NoContent, [], DefaultTiming, DefaultAddrType, seq(n, _ => DefaultQop), vliwWidth)
  }

  // ------------------------------------------------------------------ per-qubit merge

  /** Operations `j` onwards of `ops` merged into `acc`: two valid operations on one
    * qubit abort; a valid one fills an invalid slot; an operation with no slot aborts
    * (the source indexes past the qubits). */
  function MergeOpsFrom(acc: seq<FledgedQop>, ops: seq<FledgedQop>, j: nat): (r: Result<seq<FledgedQop>, string>)
    ensures r.Success? ==> |r.value| == |acc|
    decreases |ops| - j
  {
    if j >= |ops| then Success(acc)
    else if j >= |acc| then Failure("bad qubit")
    else if acc[j].IsValid() && ops[j].IsValid() then Failure("qubit conflict")
    else if !acc[j].IsValid() && ops[j].IsValid() then MergeOpsFrom(acc[j := ops[j]], ops, j + 1)
    else MergeOpsFrom(acc, ops, j + 1)
  }

  /** No qubit from `j` on carries a valid operation in both lists. */
  predicate NoClash(acc: seq<FledgedQop>, ops: seq<FledgedQop>, j: nat)
  {
    forall m :: j <= m < |ops| && m < |acc| ==> !(acc[m].IsValid() && ops[m].IsValid())
  }

  /** The merge succeeds iff every operation has a slot and no qubit is claimed twice;
    * then each slot holds the incoming operation where that is valid, and keeps its
    * own otherwise. */
  lemma {:induction false} MergeOpsMeaning(acc: seq<FledgedQop>, ops: seq<FledgedQop>, j: nat)
    ensures MergeOpsFrom(acc, ops, j).Success? <==> (j >= |ops| || |ops| <= |acc|) && NoClash(acc, ops, j)
    ensures var r := MergeOpsFrom(acc, ops, j);
      r.Success? ==> (|r.value| == |acc| &&
        forall m :: 0 <= m < |acc| ==> r.value[m] == if j <= m < |ops| && ops[m].IsValid() then ops[m] else acc[m])
    decreases |ops| - j
  {
    if j < |ops| && j < |acc| && !(acc[j].IsValid() && ops[j].IsValid()) {
      var next := if ops[j].IsValid() then acc[j := ops[j]] else acc;
      assert MergeOpsFrom(acc, ops, j) == MergeOpsFrom(next, ops, j + 1);
      MergeOpsMeaning(next, ops, j + 1);
      assert NoClash(acc, ops, j) <==> NoClash(next, ops, j + 1) by {
        forall m | j + 1 <= m < |ops| && m < |acc| ensures next[m] == acc[m] { }
      }
    } else if j < |ops| && j < |acc| {
      assert !NoClash(acc, ops, j);
    }
  }

  /** The valid operations a merge produces do not depend on which list is merged
    * into which. */
  lemma MergeOpsSymmetric(a: seq<FledgedQop>, b: seq<FledgedQop>)
    requires |a| == |b|
    ensures MergeOpsFrom(a, b, 0).Success? <==> MergeOpsFrom(b, a, 0).Success?
    ensures MergeOpsFrom(a, b, 0).Success? ==>
      var r := MergeOpsFrom(a, b, 0).value; var s := MergeOpsFrom(b, a, 0).value;
      forall m :: 0 <= m < |a| ==> (r[m].IsValid() <==> s[m].IsValid()) && (r[m].IsValid() ==> r[m] == s[m])
  {
    MergeOpsMeaning(a, b, 0);
    MergeOpsMeaning(b, a, 0);
    assert NoClash(a, b, 0) <==> NoClash(b, a, 0);
  }

  /** The loop over one lane's operations. */
  method MergeOps(acc0: seq<FledgedQop>, ops: seq<FledgedQop>) returns (r: Result<seq<FledgedQop>, string>)
    ensures r == MergeOpsFrom(acc0, ops, 0)
  {
    var acc := acc0;
    var j := 0;
    while j < |ops|
      invariant 0 <= j <= |ops| && MergeOpsFrom(acc, ops, j) == MergeOpsFrom(acc0, ops, 0)
    {
      if j >= |acc| {
        return Failure("bad qubit");
      }
      if acc[j].IsValid() && ops[j].IsValid() {
        return Failure("qubit conflict");
      } else if !acc[j].IsValid() && ops[j].IsValid() {
        acc := acc[j := ops[j]];
      }
      j := j + 1;
    }
    r := Success(acc);
  }

  // ------------------------------------------------------------------ lane merge

  /** One lane merged into the running interface, which takes the lane's content,
    * timing and VLIW width. */
  function MergeLane(acc: QPipeInterface, lane: QPipeInterface): Result<QPipeInterface, string>
  {
    match MergeOpsFrom(acc.ops, lane.ops, 0)
    case Success(o) => Success(acc.(ifContent := lane.ifContent, timing := lane.timing, vliwWidth := lane.vliwWidth, ops := o))
    case Failure(e) => Failure(e)
  }

  /** The lanes merged in order. */
  function MergeLanes(acc: QPipeInterface, lanes: seq<QPipeInterface>): Result<QPipeInterface, string>
    decreases |lanes|
  {
    if lanes == [] then Success(acc)
    else match MergeLane(acc, lanes[0])
      case Success(a) => MergeLanes(a, lanes[1..])
      case Failure(e) => Failure(e)
  }

  /** Lane `l` carries a valid operation for qubit `j`. */
  predicate ValidAt(l: QPipeInterface, j: nat)
  {
    j < |l.ops| && l.ops[j].IsValid()
  }

  /** Every lane fits the qubits, no lane claims a qubit already holding a valid
    * operation, and no two lanes claim the same qubit. */
  ghost predicate Disjoint(acc: seq<FledgedQop>, lanes: seq<QPipeInterface>)
  {
    (forall a :: 0 <= a < |lanes| ==> |lanes[a].ops| <= |acc|) &&
    (forall a, j :: 0 <= a < |lanes| && 0 <= j && ValidAt(lanes[a], j) && j < |acc| ==> !acc[j].IsValid()) &&
    (forall a, b, j :: 0 <= a < b < |lanes| && 0 <= j && ValidAt(lanes[a], j) ==> !ValidAt(lanes[b], j))
  }

  /** Merging the lanes succeeds iff they are disjoint. */
  lemma {:induction false} MergeLanesSucceeds(acc: QPipeInterface, lanes: seq<QPipeInterface>)
    ensures MergeLanes(acc, lanes).Success? <==> Disjoint(acc.ops, lanes)
    decreases |lanes|
  {
    if lanes != [] {
      var l := lanes[0];
      MergeOpsMeaning(acc.ops, l.ops, 0);
      var m := MergeOpsFrom(acc.ops, l.ops, 0);
      if m.Success? {
        var a1 := acc.(ifContent := l.ifContent, timing := l.timing, vliwWidth := l.vliwWidth, ops := m.value);
        assert MergeLanes(acc, lanes) == MergeLanes(a1, lanes[1..]);
        MergeLanesSucceeds(a1, lanes[1..]);
        assert [l] + lanes[1..] == lanes;
        DisjointStep(acc.ops, l, lanes[1..], m.value);
      } else {
        assert !Disjoint(acc.ops, lanes) by {
          if |l.ops| <= |acc.ops| {
            var j :| 0 <= j < |l.ops| && j < |acc.ops| && acc.ops[j].IsValid() && l.ops[j].IsValid();
            assert ValidAt(lanes[0], j);
          } else {
            assert |lanes[0].ops| > |acc.ops|;
          }
        }
      }
    }
  }

  /** After a successful merge a qubit some lane claims holds that lane's operation,
    * and the others keep theirs. */
  lemma {:induction false} MergeLanesOps(acc: QPipeInterface, lanes: seq<QPipeInterface>)
    requires MergeLanes(acc, lanes).Success?
    ensures var r := MergeLanes(acc, lanes).value;
      |r.ops| == |acc.ops| &&
      (forall a, j :: 0 <= a < |lanes| && 0 <= j < |r.ops| && ValidAt(lanes[a], j) ==> r.ops[j] == lanes[a].ops[j]) &&
      (forall j :: 0 <= j < |acc.ops| && (forall a :: 0 <= a < |lanes| ==> !ValidAt(lanes[a], j)) ==> r.ops[j] == acc.ops[j])
    decreases |lanes|
  {
    if lanes != [] {
      var l := lanes[0];
      var rest := lanes[1..];
      MergeOpsMeaning(acc.ops, l.ops, 0);
      var m := MergeOpsFrom(acc.ops, l.ops, 0).value;
      var a1 := acc.(ifContent := l.ifContent, timing := l.timing, vliwWidth := l.vliwWidth, ops := m);
      assert MergeLanes(acc, lanes) == MergeLanes(a1, rest);
      MergeLanesOps(a1, rest);
      MergeLanesSucceeds(acc, lanes);
      var r := MergeLanes(acc, lanes).value;
      forall a, j | 0 <= a < |lanes| && 0 <= j < |r.ops| && ValidAt(lanes[a], j) ensures r.ops[j] == lanes[a].ops[j] {
        if a > 0 {
          assert ValidAt(rest[a - 1], j);
        } else {
          forall b | 0 <= b < |rest| ensures !ValidAt(rest[b], j) {
            assert lanes[b + 1] == rest[b];
          }
        }
      }
      forall j | 0 <= j < |acc.ops| && (forall a :: 0 <= a < |lanes| ==> !ValidAt(lanes[a], j))
        ensures r.ops[j] == acc.ops[j]
      {
        assert !ValidAt(lanes[0], j);
        forall b | 0 <= b < |rest| ensures !ValidAt(rest[b], j) {
          assert lanes[b + 1] == rest[b];
        }
      }
    }
  }

  /** After a successful merge of some lanes the content, timing and VLIW width are
    * the last lane's. */
  lemma {:induction false} MergeLanesTakesLast(acc: QPipeInterface, lanes: seq<QPipeInterface>)
    requires MergeLanes(acc, lanes).Success? && lanes != []
    ensures var r := MergeLanes(acc, lanes).value; var last := lanes[|lanes| - 1];
      r.ifContent == last.ifContent && r.timing == last.timing && r.vliwWidth == last.vliwWidth
    decreases |lanes|
  {
    var l := lanes[0];
    var m := MergeOpsFrom(acc.ops, l.ops, 0).value;
    var a1 := acc.(ifContent := l.ifContent, timing := l.timing, vliwWidth := l.vliwWidth, ops := m);
    assert MergeLanes(acc, lanes) == MergeLanes(a1, lanes[1..]);
    if |lanes| > 1 {
      MergeLanesTakesLast(a1, lanes[1..]);
    }
  }

  /** The lanes are disjoint over `acc` iff the first lane merges cleanly and the rest
    * are disjoint over the merged operations. */
  lemma DisjointStep(acc: seq<FledgedQop>, l: QPipeInterface, rest: seq<QPipeInterface>, merged: seq<FledgedQop>)
    requires |l.ops| <= |acc| && NoClash(acc, l.ops, 0)
    requires |merged| == |acc|
    requires forall m :: 0 <= m < |acc| ==> merged[m] == if m < |l.ops| && l.ops[m].IsValid() then l.ops[m] else acc[m]
    ensures Disjoint(acc, [l] + rest) <==> Disjoint(merged, rest)
  {
    var lanes := [l] + rest;
    assert forall a :: 0 <= a < |rest| ==> lanes[a + 1] == rest[a];
    if Disjoint(merged, rest) {
      forall a, j | 0 <= a < |lanes| && 0 <= j && ValidAt(lanes[a], j) && j < |acc| ensures !acc[j].IsValid() {
        if a > 0 {
          assert ValidAt(rest[a - 1], j);
        }
      }
      forall a, b, j | 0 <= a < b < |lanes| && 0 <= j && ValidAt(lanes[a], j) ensures !ValidAt(lanes[b], j) {
        if a > 0 {
          assert ValidAt(rest[a - 1], j);
        } else {
          assert lanes[b] == rest[b - 1];
          assert j < |merged| && merged[j] == l.ops[j];
        }
      }
      forall a | 0 <= a < |lanes| ensures |lanes[a].ops| <= |acc| {
        if a > 0 {
          assert lanes[a] == rest[a - 1];
        }
      }
    }
    if Disjoint(acc, lanes) {
      forall a, j | 0 <= a < |rest| && 0 <= j && ValidAt(rest[a], j) && j < |merged| ensures !merged[j].IsValid() {
        assert ValidAt(lanes[a + 1], j);
        if j < |l.ops| && l.ops[j].IsValid() {
          assert ValidAt(lanes[0], j);
        }
      }
      forall a, b, j | 0 <= a < b < |rest| && 0 <= j && ValidAt(rest[a], j) ensures !ValidAt(rest[b], j) {
        assert ValidAt(lanes[a + 1], j);
      }
    }
  }

  /** The loop over the VLIW lanes. */
  method CombineLanes(start: QPipeInterface, lanes: seq<QPipeInterface>) returns (r: Result<QPipeInterface, string>)
    ensures r == MergeLanes(start, lanes)
  {
    var acc := start;
    var i := 0;
    while i < |lanes|
      invariant 0 <= i <= |lanes| && MergeLanes(acc, lanes[i..]) == MergeLanes(start, lanes)
    {
      assert lanes[i..][1..] == lanes[i + 1..];
      var ops := MergeOps(acc.ops, lanes[i].ops);
      if ops.Failure? {
        return Failure(ops.error);
      }
      acc := acc.(ifContent := lanes[i].ifContent, timing := lanes[i].timing, vliwWidth := lanes[i].vliwWidth, ops := ops.value);
      i := i + 1;
    }
    r := Success(acc);
  }

  // ------------------------------------------------------------------ the valid-operation check

  predicate AnyValidOp(ops: seq<FledgedQop>)
  {
    exists j :: 0 <= j < |ops| && ops[j].IsValid()
  }

  /** The loop that looks for a valid operation. */
  method HasValidOp(ops: seq<FledgedQop>) returns (found: bool)
    ensures found <==> AnyValidOp(ops)
  {
    found := false;
    var j := 0;
    while j < |ops|
      invariant 0 <= j <= |ops| && !found
      invariant forall m :: 0 <= m < j ==> !ops[m].IsValid()
    {
      if ops[j].IsValid() {
        found := true;
        break;
      }
      j := j + 1;
    }
  }

  /** The merged interface of one cycle, from the cleared interface `start`: the lanes
    * merged, and an interface announcing a valid operation with none aborts. */
  function Merged(start: QPipeInterface, lanes: seq<QPipeInterface>): Result<QPipeInterface, string>
  {
    match MergeLanes(start, lanes)
    case Failure(e) => Failure(e)
    case Success(m) =>
      if !AnyValidOp(m.ops) && m.ifContent.validQop then Failure("no qubit")
      else Success(m)
  }

  /** Merged from a blank interface, an interface with a valid-operation flag carries a
    * valid operation, and every valid operation it carries comes from a lane. */
  lemma MergedCarriesLaneOps(w: nat, n: nat, lanes: seq<QPipeInterface>)
    ensures var r := Merged(Blank(w, n), lanes);
      r.Success? ==> (|r.value.ops| == n && (r.value.ifContent.validQop ==> AnyValidOp(r.value.ops)) &&
        forall j :: 0 <= j < n && r.value.ops[j].IsValid() ==> exists a :: 0 <= a < |lanes| && ValidAt(lanes[a], j) && r.value.ops[j] == lanes[a].ops[j])
  {
    var b := Blank(w, n);
    var r := Merged(b, lanes);
    if r.Success? {
      MergeLanesOps(b, lanes);
      forall j | 0 <= j < n && r.value.ops[j].IsValid()
        ensures exists a :: 0 <= a < |lanes| && ValidAt(lanes[a], j) && r.value.ops[j] == lanes[a].ops[j]
      {
        if forall a :: 0 <= a < |lanes| ==> !ValidAt(lanes[a], j) {
          assert false;
        }
        var a :| 0 <= a < |lanes| && ValidAt(lanes[a], j);
      }
    }
  }

  // ------------------------------------------------------------------ bundles with one label

  /** A bundle with the cached bundle's timing label folded into the cache: the
    * operation and wait flags are ORed, a different label aborts, and the operations
    * merge under the same conflict rule as the lanes. */
  function Absorb(cache: QPipeInterface, cur: QPipeInterface): Result<QPipeInterface, string>
  {
    var t := cache.(ifContent := cache.ifContent.(validQop := cache.ifContent.validQop || cur.ifContent.validQop,
                                                   validWait := cache.ifContent.validWait || cur.ifContent.validWait));
    if t.timing.timingLabel != cur.timing.timingLabel then Failure("label mismatch")
    else match MergeOpsFrom(t.ops, cur.ops, 0)
      case Success(o) => Success(t.(ops := o))
      case Failure(e) => Failure(e)
  }

  /** Folding a bundle into the cache succeeds iff the labels agree and no qubit is
    * claimed by both; the result keeps the cache's timing, holds both bundles' valid
    * operations, and announces an operation or a wait if either did. */
  lemma AbsorbMeaning(cache: QPipeInterface, cur: QPipeInterface)
    requires |cur.ops| == |cache.ops|
    ensures Absorb(cache, cur).Success? <==>
      cache.timing.timingLabel == cur.timing.timingLabel && NoClash(cache.ops, cur.ops, 0)
    ensures var r := Absorb(cache, cur);
      r.Success? ==> (r.value.timing == cache.timing && |r.value.ops| == |cache.ops| &&
        r.value.ifContent.validQop == (cache.ifContent.validQop || cur.ifContent.validQop) &&
        r.value.ifContent.validWait == (cache.ifContent.validWait || cur.ifContent.validWait) &&
        forall j :: 0 <= j < |cache.ops| ==> r.value.ops[j] == if cur.ops[j].IsValid() then cur.ops[j] else cache.ops[j])
  {
    MergeOpsMeaning(cache.ops, cur.ops, 0);
  }

  /** The statements of the matching branch that fold a bundle into the cache. */
  method AbsorbBundle(cache: QPipeInterface, cur: QPipeInterface) returns (r: Result<QPipeInterface, string>)
    ensures r == Absorb(cache, cur)
    ensures r.Success? ==> |r.value.ops| == |cache.ops|
  {
    var t := cache;
    t := t.(ifContent := t.ifContent.(validQop := t.ifContent.validQop || cur.ifContent.validQop));
    t := t.(ifContent := t.ifContent.(validWait := t.ifContent.validWait || cur.ifContent.validWait));
    if t.timing.timingLabel != cur.timing.timingLabel {
      return Failure("label mismatch");
    }
    var ops := MergeOps(t.ops, cur.ops);
    if ops.Failure? {
      return Failure(ops.error);
    }
    r := Success(t.(ops := ops.value));
  }

  // ------------------------------------------------------------------ the module

  /** `Operation_combiner`: the timestamp and match signals, the cached interface
    * `q_pipe_interface_sig`, the output port, and `do_output`'s own interface, whose
    * VLIW width survives from one cycle to the next. */
  class OperationCombiner {
    const numQubits: nat
    var timestamp: Uint32
    var timestampMatch: bool
    var cache: QPipeInterface
    var own: QPipeInterface
    var out: QPipeInterface

    predicate Valid()
      reads this
    {
      |cache.ops| == numQubits
    }

    /** The constructor caches a default interface with `num_qubits` operations; the
      * VLIW width of a default-constructed interface is not initialised in the source
      * and is taken as 0 here. */
    constructor (n: nat)
      ensures Valid() && numQubits == n && cache == Blank(0, n) && own == Blank(0, 0) && out == Blank(0, 0)
      ensures timestamp == 0 && !timestampMatch
    {
      numQubits := n;
      timestamp := 0;
      timestampMatch := false;
      cache := Blank(0, n);
      own := Blank(0, 0);
      out := Blank(0, 0);
    }

    /** `detect_timestamp_match`: every lane overwrites the flag, so only the last
      * lane's label is compared with the timestamp; reset forces a match, and with no
      * lanes the flag is not written. */
    method DetectTimestampMatch(reset: bool, lanes: seq<QPipeInterface>)
      modifies this`timestampMatch
      ensures lanes == [] ==> timestampMatch == old(timestampMatch)
      ensures lanes != [] ==> (timestampMatch <==> reset || timestamp == lanes[|lanes| - 1].timing.timingLabel)
    {
      var i := 0;
      while i < |lanes|
        invariant 0 <= i <= |lanes|
        invariant i == 0 ==> timestampMatch == old(timestampMatch)
        invariant i > 0 ==> (timestampMatch <==> reset || timestamp == lanes[i - 1].timing.timingLabel)
      {
        if !reset && timestamp != lanes[i].timing.timingLabel {
          timestampMatch := false;
        } else {
          timestampMatch := true;
        }
        i := i + 1;
      }
    }

    /** `do_output`, one clock. Reset clears the timestamp and sends and caches a
      * blank interface. Otherwise the lanes are merged; a new label sends the cached
      * bundle on and caches the merged one; the label being waited on sends a blank
      * interface and folds the merged bundle into the cache. */
    method DoOutput(reset: bool, lanes: seq<QPipeInterface>) returns (r: Result<(), string>)
      requires Valid()
      modifies this
      ensures Valid() && timestampMatch == old(timestampMatch)
      ensures reset ==> r.Success? && timestamp == 0 && own == Blank(old(own).vliwWidth, numQubits) &&
                        out == own && cache == own
      ensures !reset ==> var m := Merged(Blank(old(own).vliwWidth, numQubits), lanes);
        (r.Success? <==> m.Success? && (timestampMatch ==> Absorb(old(cache), m.value).Success?)) &&
        (r.Success? && !timestampMatch ==>
           out == old(cache) && timestamp == m.value.timing.timingLabel && cache == m.value && own == m.value) &&
        (r.Success? && timestampMatch ==>
           out == Blank(0, numQubits) && timestamp == old(timestamp) && cache == Absorb(old(cache), m.value).value &&
           own == m.value)
    {
      own := Blank(own.vliwWidth, numQubits);
      if reset {
        timestamp := 0;
        out := own;
        cache := own;
        return Success(());
      }
      var merged := CombineLanes(own, lanes);
      if merged.Failure? {
        return Failure(merged.error);
      }
      MergeLanesOps(own, lanes);
      own := merged.value;
      var found := HasValidOp(own.ops);
      if !found && own.ifContent.validQop {
        return Failure("no qubit");
      }
      if !timestampMatch {
        out := cache;
        timestamp := own.timing.timingLabel;
        cache := own;
      } else {
        out := Blank(0, numQubits);
        var t := AbsorbBundle(cache, own);
        if t.Failure? {
          return Failure(t.error);
        }
        cache := t.value;
      }
      r := Success(());
    }
  }
}
