/** No counter of address_stats goes below zero, drifted rows and corrections included. */
module AddressCounters {
  import opened Sums
  import opened AddressRebase

  predicate NaturalRow(row: Option<Row>) { row.Some? ==> row.value.counts.Natural() }

  ghost predicate NaturalRows(t: Tables) { forall a :: NaturalRow(Get(t.rows, a)) }

  /** The row was read in an earlier state of the run, and no other batch held its address until now. */
  ghost predicate ReadAt(states: seq<Tables>, steps: seq<Step>, j: int, i: int, v: RebaseRow)
    requires |states| == |steps| + 1
  {
    && 0 <= j <= i < |steps|
    && v == Read(states[j], v.address, v.creatable) && LeavesAlone(steps[j..i], v.address)
  }

  ghost predicate ReadInRun(states: seq<Tables>, steps: seq<Step>, i: int)
    requires |states| == |steps| + 1 && 0 <= i < |steps|
  {
    steps[i].Batch? ==> forall v :: v in steps[i].read ==> exists j :: ReadAt(states, steps, j, i, v)
  }

  lemma {:induction false} IngestNatural(t: Tables, n: int, b: Contributions, a: Address)
    requires n !in t.blocks && NaturalRow(Get(t.rows, a)) && (a in b ==> b[a].Natural())
    ensures NaturalRow(Get(Ingest(t, n, b).rows, a))
  {
    RowIngest(t, n, b, a);
  }

  /** The subtraction stops at zero, whatever the row holds. */
  lemma {:induction false} RevertNatural(t: Tables, n: int, a: Address)
    requires n in t.blocks && NaturalRow(Get(t.rows, a))
    ensures NaturalRow(Get(Revert(t, n).rows, a))
  {
    RowRevert(t, n, a);
  }

  lemma {:induction false} TruthNatural(t: Tables, a: Address)
    requires WellFormed(t)
    ensures NaturalRow(Truth(t.blocks, a))
  {
    TotalNatural(t.blocks, Seen(t.blocks, a), a);
  }

  lemma {:induction false} SubRun(states: seq<Tables>, steps: seq<Step>, j: int, i: int)
    requires Run(states, steps) && 0 <= j <= i <= |steps|
    ensures Run(states[j..i + 1], steps[j..i])
  {
    var some, done := states[j..i + 1], steps[j..i];
    forall k | 0 <= k < |done| ensures NextAt(some, done, k) {
      assert NextAt(states, steps, j + k);
      assert some[k] == states[j + k] && some[k + 1] == states[j + k + 1] && done[k] == steps[j + k];
    }
  }

  /** A batch leaves a row it read in the run with counters of its truth, or as it found it. */
  lemma {:induction false} BatchNatural(states: seq<Tables>, steps: seq<Step>, i: int, j: int, v: RebaseRow)
    requires Run(states, steps) && 0 <= i < |steps| && steps[i].Batch? && v in steps[i].read
    requires ReadAt(states, steps, j, i, v) && WellFormed(states[j]) && WellFormed(states[i + 1])
    requires NaturalRow(Get(states[i].rows, v.address))
    ensures NaturalRow(Get(states[i + 1].rows, v.address))
  {
    var a, read := v.address, steps[i].read;
    assert NextAt(states, steps, i);
    if a in states[j].rows || v.creatable {
      SubRun(states, steps, j, i);
      assert states[j..i + 1][|steps[j..i]|] == states[i];
      RebaseReachesTruth(states[j..i + 1], steps[j..i], a, v.creatable, read, states[i + 1]);
      TruthNatural(states[i + 1], a);
    } else {
      var k :| 0 <= k < |read| && read[k] == v;
      assert Get(states[i + 1].rows, read[k].address) == AppliedTo(states[i], v);
    }
  }

  lemma {:induction false} NaturalAt(states: seq<Tables>, steps: seq<Step>, i: int, a: Address)
    requires Run(states, steps) && 0 <= i < |steps| && ReadInRun(states, steps, i)
    requires forall k :: 0 <= k <= i + 1 ==> WellFormed(states[k])
    requires NaturalRow(Get(states[i].rows, a))
    ensures NaturalRow(Get(states[i + 1].rows, a))
  {
    assert NextAt(states, steps, i);
    match steps[i]
    case Write(n, b) => if n !in states[i].blocks { IngestNatural(states[i], n, b, a); }
    case Undo(n) => if n in states[i].blocks { RevertNatural(states[i], n, a); }
    case Batch(read) =>
      if Reads(read, a) {
        var k :| 0 <= k < |read| && read[k].address == a;
        assert read[k] in read;
        var j :| ReadAt(states, steps, j, i, read[k]);
        BatchNatural(states, steps, i, j, read[k]);
      } else {
        assert Get(states[i + 1].rows, a) == Get(states[i].rows, a);
      }
  }

  lemma {:induction false} WellFormedAfter(states: seq<Tables>, steps: seq<Step>, i: int)
    requires |states| == |steps| + 1 && 0 <= i < |steps| && NextAt(states, steps, i) && WellFormed(states[i])
    ensures WellFormed(states[i + 1])
  {
    WellFormedNext(states[i], steps[i], states[i + 1]);
  }

  lemma {:induction false} AlwaysWellFormed(states: seq<Tables>, steps: seq<Step>, k: int)
    requires Run(states, steps) && WellFormed(states[0]) && 0 <= k <= |steps|
    ensures WellFormed(states[k])
    decreases k
  {
    if k > 0 {
      AlwaysWellFormed(states, steps, k - 1);
      WellFormedAfter(states, steps, k - 1);
    }
  }

  /**
   In every run of ingest, reverts and batches, each batch applied to what it read earlier in the run, no counter of any
   row is below zero if none was, however far the rows are from their truths.
   */
  lemma {:induction false} NeverNegative(states: seq<Tables>, steps: seq<Step>, k: int)
    requires Run(states, steps) && WellFormed(states[0]) && NaturalRows(states[0]) && 0 <= k <= |steps|
    requires forall i :: 0 <= i < |steps| ==> ReadInRun(states, steps, i)
    ensures NaturalRows(states[k])
    decreases k
  {
    if k > 0 {
      NeverNegative(states, steps, k - 1);
      forall i | 0 <= i <= k ensures WellFormed(states[i]) {
        AlwaysWellFormed(states, steps, i);
      }
      forall a ensures NaturalRow(Get(states[k].rows, a)) {
        NaturalAt(states, steps, k - 1, a);
      }
    }
  }
}
