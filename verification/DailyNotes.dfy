/** The notes of late days that block writers and the advance share: each call is a step of the run. */
module DailyNotes {
  import opened Sums
  import opened DailyFold
  import opened DailyAdvance
  import opened DailyRun

  class LateDays {
    var watermark: Option<int>
    var days: set<int>
    var searched: bool

    /** The notes are those of the run; searched is never set before the run has searched. */
    predicate Shows(w: World)
      reads this
    {
      watermark == w.notedTo && days == w.days && (searched ==> w.searched)
    }

    constructor ()
      ensures forall w: World :: Shows(DailyRun.Apply(w, Restart))
    {
      watermark, days, searched := None, {}, false;
    }

    /**
     A block is noted exactly when the aggregate may have passed it. The note may come after the block was reverted,
     when it adds a day too many.
     */
    method NoteBlock(ghost w: World, n: int, day: int)
      requires Shows(w)
      modifies this
      ensures n in w.unnoted && n in w.blocks && w.blocks[n].day == day ==> Shows(DailyRun.Apply(w, Note(n)))
      ensures Shows(if IsLate(w.notedTo, n) then DailyRun.Apply(w, Extra(day)) else w)
    {
      if watermark.Some? && n > watermark.value {
        return;
      }
      days := days + {day};
    }

    /** The advance takes every note; it searches unless a search was completed since the start. */
    method Take(ghost w: World) returns (taken: set<int>, search: bool)
      requires Shows(w) && Enabled(w, DailyRun.Take)
      modifies this
      ensures Shows(DailyRun.Apply(w, DailyRun.Take)) && search == !searched && unchanged(`searched)
      ensures DailyRun.Apply(w, DailyRun.Take).held.value.todo == taken
    {
      taken, search := days, !searched;
      days := {};
    }

    /** The days an advance gives back; one that searched and did not get through them searches again. */
    method GiveBack(ghost w: World, given: set<int>, search: bool, ghost done: bool)
      requires Shows(w) && Enabled(w, DailyRun.GiveBack(done))
      requires given == if done then w.held.value.pending else w.held.value.all
      modifies this
      ensures Shows(DailyRun.Apply(w, DailyRun.GiveBack(done))) && searched == (old(searched) && !search)
    {
      days := days + given;
      if search {
        searched := false;
      }
    }

    /** The watermark an advance returns; blocks above it are the next advance's to count. */
    method Advanced(ghost w: World, upto: int, all: bool)
      requires Shows(w) && Enabled(w, Report) && w.held.value.upto == Some(upto) && (all ==> w.searched)
      modifies this
      ensures Shows(DailyRun.Apply(w, Report)) && searched == (old(searched) || all)
    {
      watermark := Some(upto);
      if all {
        searched := true;
      }
    }

    /** Where the notes show a quiet run, the aggregate counts each stored block once. */
    lemma QuietNotes(w: World)
      requires Shows(w) && Inv(w) && searched && days == {} && w.held.None? && w.unnoted == {}
      ensures forall d :: d in w.agg.acc ==>
                w.agg.acc[d] == Total(w.blocks, Day(w.blocks, d, w.agg.wm), Paired(w.blocks))
    {
      QuietIsExact(w);
    }
  }
}
