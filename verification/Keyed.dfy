/** Keyed streams: an operator that keeps one state per key, as `keyBy` gives it. */
module Keyed {
  import opened Basics

  /** The state under key x; a key that was never touched is in the initial state. */
  function At<K, C>(cells: map<K, C>, x: K, init: C): C {
    if x in cells then cells[x] else init
  }

  ghost predicate Closed<C(!new), E(!new), O(!new)>(step: (C, E) --> (C, seq<O>), inv: C -> bool, ok: E -> bool) {
    forall c, e :: inv(c) && ok(e) ==> step.requires(c, e) && inv(step(c, e).0)
  }

  /** A run of one operator instance on one key. */
  ghost function RunOne<C(!new), E(!new), O(!new)>(step: (C, E) --> (C, seq<O>), inv: C -> bool, ok: E -> bool,
                                                  c: C, es: seq<E>): (C, seq<O>)
    requires Closed(step, inv, ok) && inv(c) && forall i :: 0 <= i < |es| ==> ok(es[i])
    decreases |es|
  {
    if es == [] then (c, []) else
      var (c1, out) := step(c, es[0]);
      var (c2, rest) := RunOne(step, inv, ok, c1, es[1..]);
      (c2, out + rest)
  }

  ghost predicate AllCells<K, C(!new)>(cells: map<K, C>, inv: C -> bool) {
    forall x | x in cells :: inv(cells[x])
  }

  /** A run of the keyed operator on the whole stream; each result carries the key it came from. */
  ghost function RunKeyed<K, C(!new), E(!new), O(!new)>(
      step: (C, E) --> (C, seq<O>), inv: C -> bool, ok: E -> bool, keyOf: E -> K, init: C,
      cells: map<K, C>, es: seq<E>): (r: (map<K, C>, seq<(K, O)>))
    requires Closed(step, inv, ok) && inv(init) && AllCells(cells, inv)
    requires forall i :: 0 <= i < |es| ==> ok(es[i])
    ensures AllCells(r.0, inv)
    decreases |es|
  {
    if es == [] then (cells, []) else
      var x := keyOf(es[0]);
      var (c1, out) := step(At(cells, x, init), es[0]);
      var (cells2, rest) := RunKeyed(step, inv, ok, keyOf, init, cells[x := c1], es[1..]);
      (cells2, Map(o => (x, o), out) + rest)
  }

  function EventsOf<K(==), E>(keyOf: E -> K, x: K, es: seq<E>): (r: seq<E>)
    ensures forall i :: 0 <= i < |r| ==> r[i] in es && keyOf(r[i]) == x
  {
    if es == [] then [] else (if keyOf(es[0]) == x then [es[0]] else []) + EventsOf(keyOf, x, es[1..])
  }

  function ResultsOf<K(==), O>(x: K, out: seq<(K, O)>): seq<O> {
    if out == [] then [] else (if out[0].0 == x then [out[0].1] else []) + ResultsOf(x, out[1..])
  }

  lemma {:induction false} ResultsOfConcat<K, O>(x: K, a: seq<(K, O)>, b: seq<(K, O)>)
    ensures ResultsOf(x, a + b) == ResultsOf(x, a) + ResultsOf(x, b)
  {
    if a == [] {
      assert a + b == b;
    } else {
      assert (a + b)[1..] == a[1..] + b;
      ResultsOfConcat(x, a[1..], b);
      var head := if a[0].0 == x then [a[0].1] else [];
      assert ResultsOf(x, a + b) == head + ResultsOf(x, a[1..] + b);
      assert ResultsOf(x, a) == head + ResultsOf(x, a[1..]);
      assert head + ResultsOf(x, a[1..] + b) == head + ResultsOf(x, a[1..]) + ResultsOf(x, b);
    }
  }

  lemma {:induction false} ResultsOfTagged<K, O>(x: K, y: K, out: seq<O>)
    ensures ResultsOf(x, Map(o => (y, o), out)) == if x == y then out else []
  {
    if out != [] {
      ResultsOfTagged(x, y, out[1..]);
      assert Map(o => (y, o), out) == [(y, out[0])] + Map(o => (y, o), out[1..]);
    }
  }

  /** Keys do not interfere: what a keyed run leaves under x, and collects for x, is what one instance
      does that sees only the events of x. */
  lemma {:induction false} Projection<K, C(!new), E(!new), O(!new)>(
      step: (C, E) --> (C, seq<O>), inv: C -> bool, ok: E -> bool, keyOf: E -> K, init: C,
      cells: map<K, C>, es: seq<E>, x: K)
    requires Closed(step, inv, ok) && inv(init) && AllCells(cells, inv)
    requires forall i :: 0 <= i < |es| ==> ok(es[i])
    ensures var (final, out) := RunKeyed(step, inv, ok, keyOf, init, cells, es);
            var one := RunOne(step, inv, ok, At(cells, x, init), EventsOf(keyOf, x, es));
            At(final, x, init) == one.0 && ResultsOf(x, out) == one.1
    decreases |es|
  {
    if es != [] {
      var y := keyOf(es[0]);
      var (c1, out) := step(At(cells, y, init), es[0]);
      var cells1 := cells[y := c1];
      Projection(step, inv, ok, keyOf, init, cells1, es[1..], x);
      var rest := RunKeyed(step, inv, ok, keyOf, init, cells1, es[1..]).1;
      ResultsOfConcat(x, Map(o => (y, o), out), rest);
      ResultsOfTagged(x, y, out);
      if x == y {
        assert EventsOf(keyOf, x, es)[1..] == EventsOf(keyOf, x, es[1..]);
      } else {
        assert EventsOf(keyOf, x, es) == EventsOf(keyOf, x, es[1..]);
      }
    }
  }
}

/** The buffered joins as keyed streams. */
module KeyedJoins {
  import opened Basics
  import opened Records
  import opened Operators
  import opened Keyed

  ghost function Step(k: Stage): (Cell, Event) --> (Cell, seq<Sale>) {
    (c: Cell, e: Event) requires CellFits(k, c) && EventFits(k, e) => Process(k, c, e)
  }

  ghost function FitCell(k: Stage): Cell -> bool { c => CellFits(k, c) }

  ghost function FitEvent(k: Stage): Event -> bool { e => EventFits(k, e) }

  ghost function Keying(k: Stage): Event -> Key { e => EventKey(k, e) }

  /** The whole stream through stage k, from empty state. */
  ghost function RunJoin(k: Stage, es: seq<Event>): (map<Key, Cell>, seq<(Key, Sale)>)
    requires EventsFit(k, es)
  {
    RunKeyed(Step(k), FitCell(k), FitEvent(k), Keying(k), EMPTY_CELL, map[], es)
  }

  lemma {:induction false} RunOneIsRunCell(k: Stage, c: Cell, es: seq<Event>)
    requires CellFits(k, c) && EventsFit(k, es)
    ensures RunOne(Step(k), FitCell(k), FitEvent(k), c, es) == RunCell(k, c, es)
    decreases es
  {
    if es != [] {
      RunOneIsRunCell(k, Process(k, c, es[0]).0, es[1..]);
    }
  }

  lemma OwnEvents(k: Stage, es: seq<Event>, x: Key)
    requires EventsFit(k, es)
    ensures var mine := EventsOf(Keying(k), x, es);
            forall i :: 0 <= i < |mine| ==> EventFits(k, mine[i]) && EventKey(k, mine[i]) == x
  {
  }

  /** The closed form of a keyed join, for every stream and every key: key x ends with the newest of its
      own records, or with its own sales while it has none, and the sales collected under x are its
      arrivals in order, each with the newest record of x that precedes it, or the first one when it
      waited. Other keys have no part in it. */
  lemma KeyedClosedForm(k: Stage, es: seq<Event>, x: Key)
    requires EventsFit(k, es)
    requires k == PROMO ==> x != ById(None)
    ensures var mine := EventsOf(Keying(k), x, es);
            var (cells, out) := RunJoin(k, es);
            && EventsFit(k, mine)
            && ResultsOf(x, out) == LatestOrFirst(k, None, mine)
            && At(cells, x, EMPTY_CELL) == Cell(LastRef(mine), if LastRef(mine).None? then Arrivals(mine) else [])
  {
    var mine := EventsOf(Keying(k), x, es);
    Projection(Step(k), FitCell(k), FitEvent(k), Keying(k), EMPTY_CELL, map[], es, x);
    OwnEvents(k, es, x);
    RunOneIsRunCell(k, EMPTY_CELL, mine);
    ClosedForm(k, mine);
  }

  lemma UnnamedSales(es: seq<Event>)
    requires forall i :: 0 <= i < |es| ==> EventFits(PROMO, es[i]) && EventKey(PROMO, es[i]) == ById(None)
    ensures EventsFit(PROMO, es) && RunCell(PROMO, EMPTY_CELL, es).1 == Arrivals(es)
  {
    NullPromoPassesThrough(EMPTY_CELL, es);
  }

  /** Sales that name no promo leave the promo join in order of arrival and unchanged. */
  lemma NullPromoKey(es: seq<Event>)
    requires EventsFit(PROMO, es)
    ensures ResultsOf(ById(None), RunJoin(PROMO, es).1) == Arrivals(EventsOf(Keying(PROMO), ById(None), es))
  {
    var x := ById(None);
    var mine := EventsOf(Keying(PROMO), x, es);
    Projection(Step(PROMO), FitCell(PROMO), FitEvent(PROMO), Keying(PROMO), EMPTY_CELL, map[], es, x);
    OwnEvents(PROMO, es, x);
    RunOneIsRunCell(PROMO, EMPTY_CELL, mine);
    UnnamedSales(mine);
  }
}
