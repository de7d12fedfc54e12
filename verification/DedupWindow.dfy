/** The balance workers' dedup window: each key is held once, its repeats folded into it, and forwarded once. */
module DedupWindow {
  import opened Sums
  import opened BalanceEpochs

  const MAX_HELD_KEYS := 100000

  /** Each key held, in the order its window opened with the time it closes, and what went to the workers. */
  datatype Window = Window(held: map<Key, Work>, order: seq<(Key, int)>, forwarded: seq<Work>)

  datatype Event = Received(work: Work, due: int) | Forwarded

  ghost predicate Valid(win: Window) {
    && (forall i :: 0 <= i < |win.order| ==> win.order[i].0 in win.held)
    && (forall i, j :: 0 <= i < j < |win.order| ==> win.order[i].0 != win.order[j].0)
    && (forall k :: k in win.held ==> win.held[k].key == k && k in KeysOf(win.order))
  }

  function KeysOf(order: seq<(Key, int)>): set<Key> { set i | 0 <= i < |order| :: order[i].0 }

  function ForwardOldest(win: Window): Window {
    if win.order == [] || win.order[0].0 !in win.held then win else
      var k := win.order[0].0;
      Window(win.held - {k}, win.order[1..], win.forwarded + [win.held[k]])
  }

  function Receive(win: Window, w: Work, due: int): Window {
    if w.key.holder == 0 then win
    else if w.key in win.held then win.(held := win.held[w.key := Folded(win.held[w.key], w)])
    else
      var room := if |win.held| >= MAX_HELD_KEYS then ForwardOldest(win) else win;
      room.(held := room.held[w.key := w], order := room.order + [(w.key, due)])
  }

  function Handle(win: Window, e: Event): Window {
    match e
    case Received(w, due) => Receive(win, w, due)
    case Forwarded => ForwardOldest(win)
  }

  /** The window after the first n events. */
  function After(events: seq<Event>, n: int): Window
    requires 0 <= n <= |events|
    decreases n
  {
    if n == 0 then Window(map[], [], []) else Handle(After(events, n - 1), events[n - 1])
  }

  lemma {:induction false} ReceiveKeepsValid(win: Window, w: Work, due: int)
    requires Valid(win)
    ensures Valid(Receive(win, w, due))
  {
    if w.key.holder != 0 && w.key !in win.held {
      var room := if |win.held| >= MAX_HELD_KEYS then ForwardOldest(win) else win;
      AppendKeepsValid(room, w, due);
    }
  }

  lemma {:induction false} AppendKeepsValid(win: Window, w: Work, due: int)
    requires Valid(win) && w.key !in win.held
    ensures Valid(win.(held := win.held[w.key := w], order := win.order + [(w.key, due)]))
  {
    var order := win.order + [(w.key, due)];
    assert order[|win.order|].0 == w.key;
    forall k | k in win.held ensures k in KeysOf(order) {
      assert k in KeysOf(win.order);
      var i :| 0 <= i < |win.order| && win.order[i].0 == k;
      assert order[i].0 == k;
    }
  }

  // ---------- nothing lost, nothing invented ----------

  /** A read's epoch and block, which decide which of two reads of a key is kept. */
  datatype Mark = Mark(epoch: int, block: int)

  function MarkOf(w: Work, k: Key): Option<Mark> { if w.key == k then Some(Mark(w.epoch, w.block)) else None }

  function Join(a: Option<Mark>, b: Option<Mark>): Option<Mark> {
    if a.None? then b
    else if b.None? then a
    else if b.value.epoch > a.value.epoch || (b.value.epoch == a.value.epoch && b.value.block > a.value.block) then b
        else a
  }

  /** The greatest mark of k's reads. */
  function GreatestMark(ws: seq<Work>, k: Key): Option<Mark> {
    if ws == [] then None else Join(GreatestMark(ws[..|ws| - 1], k), MarkOf(ws[|ws| - 1], k))
  }

  function HeldMark(win: Window, k: Key): Option<Mark> { if k in win.held then MarkOf(win.held[k], k) else None }

  /** Work of the zero address is passed over. */
  predicate Arrives(e: Event) { e.Received? && e.work.key.holder != 0 }

  function Works(events: seq<Event>, n: int): seq<Work>
    requires 0 <= n <= |events|
    decreases n
  {
    if n == 0 then []
    else if Arrives(events[n - 1]) then Works(events, n - 1) + [events[n - 1].work]
    else Works(events, n - 1)
  }

  /** The greatest mark of k among the reads forwarded and the one held. */
  function Reach(win: Window, k: Key): Option<Mark> { Join(GreatestMark(win.forwarded, k), HeldMark(win, k)) }

  predicate FirstHeld(win: Window) {
    win.order != [] ==> win.order[0].0 in win.held && win.held[win.order[0].0].key == win.order[0].0
  }

  /**
   After any arrivals and forwards, the greatest read of a key among those forwarded and the one held is the greatest
   that arrived: no arrival is lost.
   */
  lemma {:induction false} NothingLost(events: seq<Event>, n: int, k: Key)
    requires 0 <= n <= |events|
    ensures Reach(After(events, n), k) == GreatestMark(Works(events, n), k)
    decreases n
  {
    if n > 0 {
      NothingLost(events, n - 1, k);
      AlwaysValid(events, n - 1);
      ReachesWorks(After(events, n - 1), events[n - 1], Works(events, n - 1), k);
    }
  }

  lemma {:induction false} ReachesWorks(win: Window, e: Event, works: seq<Work>, k: Key)
    requires Valid(win) && FirstHeld(win) && Reach(win, k) == GreatestMark(works, k)
    ensures Reach(Handle(win, e), k) == GreatestMark(if Arrives(e) then works + [e.work] else works, k)
  {
    EventReaches(win, e, k);
  }

  lemma {:induction false} EventReaches(win: Window, e: Event, k: Key)
    requires Valid(win) && FirstHeld(win)
    ensures Reach(Handle(win, e), k) == if Arrives(e) then Join(Reach(win, k), MarkOf(e.work, k)) else Reach(win, k)
  {
    match e
    case Forwarded => ForwardReaches(win, k);
    case Received(w, due) =>
      if Arrives(e) && w.key !in win.held && |win.held| >= MAX_HELD_KEYS {
        ForwardReaches(win, k);
      }
  }

  /** Forwarding a held read moves its mark and changes none. */
  lemma {:induction false} ForwardReaches(win: Window, k: Key)
    requires Valid(win) && FirstHeld(win)
    ensures Reach(ForwardOldest(win), k) == Reach(win, k)
  {
  }

  /** The window has seen a read of w's key with w's epoch and block. */
  ghost predicate Arrived(events: seq<Event>, n: int, w: Work)
    requires 0 <= n <= |events|
  {
    exists i :: 0 <= i < n && Arrives(events[i]) && SameMark(events[i].work, w)
  }

  predicate SameMark(a: Work, b: Work) { a.key == b.key && a.epoch == b.epoch && a.block == b.block }

  /** Nothing is held or forwarded that did not arrive. */
  lemma {:induction false} NothingInvented(events: seq<Event>, n: int, w: Work)
    requires 0 <= n <= |events|
    requires w in After(events, n).forwarded || (w.key in After(events, n).held && After(events, n).held[w.key] == w)
    ensures Arrived(events, n, w)
    decreases n
  {
    if n > 0 {
      AlwaysValid(events, n - 1);
      var before, e := After(events, n - 1), events[n - 1];
      var u := Origin(before, e, w);
      if u.Some? {
        NothingInvented(events, n - 1, u.value);
      }
    }
  }

  /** Where a read of the window after an event comes from: one before it with its mark, or the event itself. */
  lemma {:induction false} Origin(win: Window, e: Event, w: Work) returns (u: Option<Work>)
    requires Valid(win)
    requires w in Handle(win, e).forwarded || (w.key in Handle(win, e).held && Handle(win, e).held[w.key] == w)
    ensures u.None? ==> Arrives(e) && SameMark(e.work, w)
    ensures u.Some? ==> SameMark(u.value, w)
    ensures u.Some? ==> u.value in win.forwarded || (u.value.key in win.held && win.held[u.value.key] == u.value)
  {
    if w in win.forwarded || (w.key in win.held && win.held[w.key] == w) {
      return Some(w);
    }
    u := None;
  }

  lemma {:induction false} AlwaysValid(events: seq<Event>, n: int)
    requires 0 <= n <= |events|
    ensures Valid(After(events, n)) && FirstHeld(After(events, n))
    decreases n
  {
    if n > 0 {
      AlwaysValid(events, n - 1);
      if events[n - 1].Received? {
        ReceiveKeepsValid(After(events, n - 1), events[n - 1].work, events[n - 1].due);
      }
    }
  }

  // ---------- the goroutine ----------

  class Coalescer {
    var held: map<Key, Work>
    var order: seq<(Key, int)>
    var forwarded: seq<Work>

    ghost function Now(): Window reads this { Window(held, order, forwarded) }

    constructor ()
      ensures Now() == Window(map[], [], []) && Valid(Now())
    {
      held, order, forwarded := map[], [], [];
    }

    method ForwardFirst()
      requires Valid(Now()) && order != []
      modifies this
      ensures Now() == ForwardOldest(old(Now())) && Valid(Now()) && order == old(order)[1..]
    {
      var h := order[0];
      order := order[1..];
      forwarded := forwarded + [held[h.0]];
      held := held - {h.0};
    }

    method Take(w: Work, due: int)
      requires Valid(Now())
      modifies this
      ensures Now() == Receive(old(Now()), w, due) && Valid(Now())
    {
      ReceiveKeepsValid(Now(), w, due);
      if w.key.holder == 0 {
        return;
      }
      if w.key in held {
        held := held[w.key := Folded(held[w.key], w)];
        return;
      }
      if |held| >= MAX_HELD_KEYS {
        var k :| k in held;
        assert k in KeysOf(order);
        ForwardFirst();
      }
      held := held[w.key := w];
      order := order + [(w.key, due)];
    }

    /** Closing the queue forwards every held key, and the tick those whose window has passed. */
    method ForwardDue(now: int, closing: bool)
      requires Valid(Now())
      modifies this
      ensures Valid(Now())
      ensures exists n :: 0 <= n <= |old(order)| && Now() == ForwardMany(old(Now()), n)
      ensures order == [] || (!closing && order[0].1 > now)
      ensures closing ==> held == map[]
    {
      ghost var start, n := Now(), 0;
      while order != [] && (closing || order[0].1 <= now)
        invariant Valid(Now()) && 0 <= n && n + |order| == |start.order| && Now() == ForwardMany(start, n)
        decreases |order|
      {
        ForwardFirst();
        n := n + 1;
      }
      if closing {
        assert KeysOf(order) == {};
      }
    }
  }

  ghost function ForwardMany(win: Window, n: int): Window
    requires n >= 0
  {
    if n == 0 then win else ForwardOldest(ForwardMany(win, n - 1))
  }
}
