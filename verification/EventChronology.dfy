/** What a valid stream and its order are, said of the events' own fields alone:
    which streams `order_events` accepts, and the one arrangement it returns
    (observability/event_parser.py). */
module EventChronology {
  import opened Wrappers
  import opened EventOrder

  // ---------- Streams ----------

  /** `d` comes before `e` by itself: its cause, or earlier at the same source. */
  predicate Directly(d: Event, e: Event) {
    e.cause == Some(d.id) || (d.instance == e.instance && d.boot == e.boot && d.sequence < e.sequence)
  }

  /** Every event once, none before what directly comes before it. */
  ghost predicate Arranged(q: seq<Event>) {
    && (forall i, j | 0 <= i < j < |q| :: q[i] != q[j])
    && (forall i, j | 0 <= i < |q| && 0 <= j < |q| && Directly(q[i], q[j]) :: i < j)
  }

  /** Two events of one session, where the second may be its failure. */
  predicate Compatible(d: Event, e: Event) {
    match (d.update, e.update)
    case (None, None) => true
    case (Some(u), Some(v)) =>
      && u.component == v.component && u.target == v.target
      && (u.digest == v.digest || (u.digest == None && v.digest.Some?)
          || (v.digest == None && u.digest.Some? && e.code != "UPDATE_SESSION_FAILED"))
    case _ => false
  }

  /** Neither identities nor positions are given twice. */
  ghost predicate Unmistakable(events: set<Event>) {
    && (forall d, e | d in events && e in events && d.id == e.id :: d == e)
    && (forall d, e | d in events && e in events && d.instance == e.instance && d.boot == e.boot && d.sequence == e.sequence :: d == e)
  }

  /** Every cause is there, of the same session and no later attempt. */
  ghost predicate Caused(events: set<Event>) {
    forall e | e in events && e.cause.Some? ::
      exists c :: c in events && c.id == e.cause.value && c.session == e.session && c.attempt <= e.attempt
  }

  /** Along a source neither clock nor attempt falls. */
  ghost predicate Rising(events: set<Event>) {
    forall d, e | d in events && e in events && d.instance == e.instance && d.boot == e.boot && d.sequence < e.sequence ::
      d.monotonic <= e.monotonic && d.attempt <= e.attempt
  }

  ghost predicate Agreeing(events: set<Event>) {
    forall d, e | d in events && e in events && d.session == e.session :: Compatible(d, e)
  }

  ghost predicate Ending(events: set<Event>, terminals: Terminals) {
    forall e | e in events :: exists t :: Ends(events, terminals, e.session, t)
  }

  ghost predicate Arrangeable(events: set<Event>) { exists q :: SetOf(q) == events && Arranged(q) }

  ghost predicate Sound(events: set<Event>, terminals: Terminals) {
    Unmistakable(events) && Caused(events) && Rising(events) && Agreeing(events) && Ending(events, terminals) && Arrangeable(events)
  }

  /** The only terminal event of a session. */
  ghost predicate Ends(events: set<Event>, terminals: Terminals, session: string, t: Event) {
    && t in events && t.session == session && t.code in terminals
    && forall u | u in events && u.session == session && u.code in terminals :: u == t
  }

  // ---------- The order ----------

  /** A prefix, or smaller where the two first differ. */
  predicate NotAbove(a: string, b: string) {
    a <= b || exists i :: 0 <= i < |a| && i < |b| && a[..i] == b[..i] && a[i] < b[i]
  }

  /** `x` is taken although `y` could be: synchronised events by wall time
      before all others, those by source and sequence, and then by identity. */
  predicate Taken(x: Event, y: Event) {
    match (x.wall, y.wall)
    case (Some(s), Some(t)) => s < t || (s == t && NotAbove(x.id.text, y.id.text))
    case (Some(_), None) => true
    case (None, Some(_)) => false
    case (None, None) =>
      if x.instance != y.instance then NotAbove(x.instance, y.instance)
      else if x.boot != y.boot then NotAbove(x.boot, y.boot)
      else x.sequence < y.sequence || (x.sequence == y.sequence && NotAbove(x.id.text, y.id.text))
  }

  /** Everything directly before `y` is among the first `k`. */
  ghost predicate Free(q: seq<Event>, k: nat, y: Event)
    requires k <= |q|
  {
    forall d | d in q && Directly(d, y) :: d in q[..k]
  }

  /** An arrangement that at every place takes the first of the free events. */
  ghost predicate Chronological(q: seq<Event>) {
    && Arranged(q)
    && forall k, j | 0 <= k < j < |q| && Free(q, k, q[j]) :: Taken(q[k], q[j])
  }

  // ---------- The text order ----------

  lemma {:induction false} TextLessIs(a: string, b: string)
    ensures TextLess(a, b) <==> a != b && NotAbove(a, b)
    decreases |a|
  {
    if a != "" && b != "" {
      TextLessIs(a[1..], b[1..]);
      assert a == [a[0]] + a[1..] && b == [b[0]] + b[1..];
      if a[0] == b[0] {
        HeadSame(a, b);
      } else if a[0] < b[0] {
        assert a[..0] == b[..0];
      }
    }
  }

  lemma HeadSame(a: string, b: string)
    requires a != "" && b != "" && a[0] == b[0]
    ensures NotAbove(a, b) <==> NotAbove(a[1..], b[1..])
  {
    if i :| 0 <= i < |a| && i < |b| && a[..i] == b[..i] && a[i] < b[i] {
      assert a[1..][..i - 1] == a[..i][1..] == b[..i][1..] == b[1..][..i - 1];
      assert a[1..][i - 1] < b[1..][i - 1];
    }
    if i :| 0 <= i < |a[1..]| && i < |b[1..]| && a[1..][..i] == b[1..][..i] && a[1..][i] < b[1..][i] {
      assert a[..i + 1] == [a[0]] + a[1..][..i] == b[..i + 1];
      assert a[i + 1] < b[i + 1];
    }
    assert a <= b <==> a[1..] <= b[1..] by {
      assert a == [a[0]] + a[1..] && b == [b[0]] + b[1..];
    }
  }

  lemma KeyLessIs(x: Event, y: Event)
    ensures x == y || KeyLess(TieBreaker(x), TieBreaker(y)) ==> Taken(x, y)
    ensures Taken(x, y) && Taken(y, x) ==> x.id == y.id
  {
    TextLessIs(x.id.text, y.id.text);
    TextLessIs(y.id.text, x.id.text);
    TextLessIs(x.instance, y.instance);
    TextLessIs(y.instance, x.instance);
    TextLessIs(x.boot, y.boot);
    TextLessIs(y.boot, x.boot);
    TextTotal(x.id.text, y.id.text);
    TextTotal(x.instance, y.instance);
    TextTotal(x.boot, y.boot);
    assert x.id.text <= x.id.text;
    hide NotAbove, TextLess;
  }

  // ---------- The order of a stream is chronological ----------

  lemma DirectEdges(events: set<Event>, d: Event, e: Event)
    requires Consistent(events) && d in events && e in events
    ensures Edge(ById(events), d.id, e.id) ==> Directly(d, e)
  {
  }

  /** An arrangement of its events is a linearisation of their graph. */
  lemma ArrangedLinearises(events: set<Event>, q: seq<Event>)
    requires Consistent(events) && SetOf(q) == events && Arranged(q)
    ensures Linearisation(ById(events), Ids(q))
  {
    var m, ids := ById(events), Ids(q);
    assert forall i | 0 <= i < |q| :: q[i] in SetOf(q) && ids[i] == q[i].id;
    assert Members(ids) == m.Keys by {
      forall a | a in m ensures a in ids {
        var i :| 0 <= i < |q| && q[i] == m[a];
        assert ids[i] == a;
      }
    }
    forall i, j | 0 <= i < |ids| && 0 <= j < |ids| && Edge(m, ids[i], ids[j]) ensures i < j {
      DirectEdges(events, q[i], q[j]);
    }
  }

  /** Conversely, since along a source every step is an edge or goes over one. */
  lemma {:induction false} SourceInOrder(events: set<Event>, q: seq<Event>, i: nat, j: nat)
    requires Consistent(events) && SetOf(q) == events && Linearisation(ById(events), Ids(q))
    requires i < |q| && j < |q| && q[i].instance == q[j].instance && q[i].boot == q[j].boot && q[i].sequence < q[j].sequence
    ensures i < j
    decreases q[j].sequence - q[i].sequence
  {
    var m := ById(events);
    assert q[i] in SetOf(q) && q[j] in SetOf(q);
    if c :| c in m && SameSource(q[i], m[c]) && q[i].sequence < m[c].sequence < q[j].sequence {
      assert m[c] in SetOf(q);
      var k :| 0 <= k < |q| && q[k] == m[c];
      SourceInOrder(events, q, i, k);
      SourceInOrder(events, q, k, j);
    } else {
      assert Adjacent(m, q[i].id, q[j].id);
      assert Ids(q)[i] == q[i].id && Ids(q)[j] == q[j].id && Edge(m, Ids(q)[i], Ids(q)[j]);
    }
  }

  lemma LinearisationIsArranged(events: set<Event>, q: seq<Event>)
    requires Consistent(events) && SetOf(q) == events && Linearisation(ById(events), Ids(q))
    ensures Arranged(q)
  {
    var m, ids := ById(events), Ids(q);
    forall i, j | 0 <= i < |q| && 0 <= j < |q| && Directly(q[i], q[j]) ensures i < j {
      assert q[i] in SetOf(q) && q[j] in SetOf(q);
      if q[j].cause == Some(q[i].id) {
        assert Edge(m, ids[i], ids[j]);
      } else {
        SourceInOrder(events, q, i, j);
      }
    }
    assert forall i | 0 <= i < |q| :: ids[i] == q[i].id;
  }

  lemma FreeIsAvailable(events: set<Event>, q: seq<Event>, k: nat, j: nat)
    requires Consistent(events) && SetOf(q) == events && Arranged(q) && k < j < |q| && Free(q, k, q[j])
    ensures Available(ById(events), Ids(q)[..k], q[j].id)
  {
    var m, ids := ById(events), Ids(q);
    assert forall i | 0 <= i < |q| :: q[i] in SetOf(q) && ids[i] == q[i].id;
    forall a | KnownEdge(m, a, q[j].id) ensures a in ids[..k] {
      assert m[a] in SetOf(q);
      DirectEdges(events, m[a], q[j]);
      assert m[a] in q[..k];
      var i :| 0 <= i < k && q[..k][i] == m[a];
      assert ids[..k][i] == a;
    }
    forall i | 0 <= i < k ensures ids[i] != q[j].id {
      assert q[i] != q[j];
    }
  }

  lemma GreedyIsChronological(events: set<Event>, q: seq<Event>)
    requires Consistent(events) && SetOf(q) == events
    requires Linearisation(ById(events), Ids(q)) && Greedy(ById(events), Ids(q))
    ensures Chronological(q)
  {
    LinearisationIsArranged(events, q);
    var m, ids := ById(events), Ids(q);
    hide Arranged, Linearisation, Available, ById, Taken, Free;
    forall k, j | 0 <= k < j < |q| && Free(q, k, q[j]) ensures Taken(q[k], q[j]) {
      FreeIsAvailable(events, q, k, j);
      assert q[k] in SetOf(q) && q[j] in SetOf(q) && ids[k] == q[k].id;
      KeyLessIs(q[k], q[j]);
    }
  }

  /** There is at most one chronological arrangement of a set of events. */
  lemma ChronologicalIsUnique(events: set<Event>, p: seq<Event>, q: seq<Event>)
    requires Consistent(events) && SetOf(p) == events == SetOf(q) && Chronological(p) && Chronological(q)
    ensures p == q
  {
    SameLength(p, q);
    hide Arranged, Taken, Directly, Free, Consistent;
    if p != q {
      var k := FirstDifference(p, q);
      TakesBefore(q, k, p);
      TakesBefore(p, k, q);
      KeyLessIs(p[k], q[k]);
      assert p[k] in SetOf(p) && q[k] in SetOf(p);
      SameIdentity(events, p[k], q[k]);
    }
  }

  lemma SameIdentity(events: set<Event>, d: Event, e: Event)
    requires Consistent(events) && d in events && e in events && d.id == e.id
    ensures d == e
  {
  }

  /** Where two arrangements first differ, each could have taken the other's event. */
  lemma TakesBefore(q: seq<Event>, k: nat, p: seq<Event>)
    requires SetOf(p) == SetOf(q) && Arranged(p) && Chronological(q)
    requires k < |p| && k < |q| && p[..k] == q[..k] && p[k] != q[k]
    ensures Taken(q[k], p[k])
  {
    hide Taken, Directly, Arranged, Free;
    NextIsFree(q, k, p);
    NextIsLater(q, k, p);
    assert p[k] in SetOf(p);
    var j :| 0 <= j < |q| && q[j] == p[k];
  }

  lemma NextIsLater(q: seq<Event>, k: nat, p: seq<Event>)
    requires Arranged(p) && k < |p| && k < |q| && p[..k] == q[..k]
    ensures p[k] !in q[..k]
  {
    hide Directly;
  }

  lemma SameLength(p: seq<Event>, q: seq<Event>)
    requires SetOf(p) == SetOf(q) && Arranged(p) && Arranged(q)
    ensures |p| == |q|
  {
    SizeOf(p);
    SizeOf(q);
  }

  lemma {:induction false} SizeOf(q: seq<Event>)
    requires forall i, j | 0 <= i < j < |q| :: q[i] != q[j]
    ensures |SetOf(q)| == |q|
  {
    if q != [] {
      var front := q[..|q| - 1];
      SizeOf(front);
      assert SetOf(q) == SetOf(front) + {q[|q| - 1]};
      assert q[|q| - 1] !in SetOf(front);
    }
  }

  /** What another arrangement with the same beginning takes next is free. */
  lemma NextIsFree(q: seq<Event>, k: nat, p: seq<Event>)
    requires SetOf(p) == SetOf(q) && Arranged(p) && k < |p| && k < |q| && p[..k] == q[..k]
    ensures Free(q, k, p[k])
  {
    forall d | d in q && Directly(d, p[k]) ensures d in q[..k] {
      assert d in SetOf(p);
      var i :| 0 <= i < |p| && p[i] == d;
      assert i < k;
      assert p[..k][i] == d;
    }
  }

  // ---------- Which streams are valid ----------

  /** Without a cycle some event is always free, so an arrangement exists. */
  lemma {:induction false} ArrangementExists(m: Catalogue, done: seq<EventId>) returns (q: seq<EventId>)
    requires Closed(m) && !Cyclic(m)
    requires Distinct(done) && Members(done) <= m.Keys
    requires forall i, a | 0 <= i < |done| && Edge(m, a, done[i]) :: a in done[..i]
    ensures Linearisation(m, q)
    decreases |m| - |done|
  {
    hide Cyclic, Closed, Adjacent;
    DistinctSize(done);
    var rest := m.Keys - Members(done);
    if rest == {} {
      q := done;
      forall a | a in m ensures a in Members(done) {
        assert a !in rest;
      }
      forall i, j | 0 <= i < |q| && 0 <= j < |q| && Edge(m, q[i], q[j]) ensures i < j {
        assert q[i] in q[..j];
      }
    } else {
      if Waits(m, rest) {
        StuckIsCyclic(m, rest);
      }
      var b :| b in rest && !HasParentIn(m, rest, b);
      var next := done + [b];
      FreeNext(m, done, b);
      DistinctSize(next);
      SubsetSize(Members(next), m.Keys);
      q := ArrangementExists(m, next);
    }
  }

  lemma FreeNext(m: Catalogue, done: seq<EventId>, b: EventId)
    requires Closed(m) && b in m && b !in done && !HasParentIn(m, m.Keys - Members(done), b)
    requires forall i, a | 0 <= i < |done| && Edge(m, a, done[i]) :: a in done[..i]
    ensures var next := done + [b]; forall i, a | 0 <= i < |next| && Edge(m, a, next[i]) :: a in next[..i]
  {
    var next := done + [b];
    forall i, a | 0 <= i < |next| && Edge(m, a, next[i]) ensures a in next[..i] {
      if i < |done| {
        assert next[..i] == done[..i] && next[i] == done[i];
      } else {
        assert next[..i] == done && next[i] == b;
        assert m[b].cause == Some(a) ==> m[b].cause.value in m;
        assert a in m && a !in m.Keys - Members(done);
      }
    }
  }

  lemma ValidHasArrangement(events: set<Event>) returns (q: seq<Event>)
    requires Consistent(events) && Closed(ById(events)) && !Cyclic(ById(events))
    ensures SetOf(q) == events && Arranged(q)
  {
    var m := ById(events);
    var ids := ArrangementExists(m, []);
    hide Cyclic, Closed, Consistent;
    assert forall i | 0 <= i < |ids| :: ids[i] in Members(ids);
    q := seq(|ids|, i requires 0 <= i < |ids| => m[ids[i]]);
    EventsOfIds(events, m, ids, q);
    LinearisationIsArranged(events, q);
  }

  lemma EventsOfIds(events: set<Event>, m: Catalogue, ids: seq<EventId>, q: seq<Event>)
    requires WellKeyed(m) && Members(ids) == m.Keys && |q| == |ids|
    requires (forall e | e in events :: e.id in m && m[e.id] == e) && forall a | a in m :: m[a] in events
    requires forall i | 0 <= i < |ids| :: ids[i] in m && q[i] == m[ids[i]]
    ensures Ids(q) == ids && SetOf(q) == events
  {
    forall e | e in events ensures e in q {
      assert e.id in Members(ids);
      var i :| 0 <= i < |ids| && ids[i] == e.id;
      assert q[i] == e;
    }
  }

  lemma ConsistentIs(events: set<Event>)
    ensures Consistent(events) <==> Unmistakable(events)
  {
  }

  lemma CausesAre(events: set<Event>)
    requires Consistent(events)
    ensures Closed(ById(events)) && CausesAgree(events) <==> Caused(events)
  {
    var m := ById(events);
    if Closed(m) && CausesAgree(events) {
      forall e | e in events && e.cause.Some?
        ensures exists c :: c in events && c.id == e.cause.value && c.session == e.session && c.attempt <= e.attempt
      {
        assert e.id in m;
        assert CauseFits(m[e.cause.value], e);
      }
    }
    if Caused(events) {
      forall c, e | c in events && e in events && e.cause == Some(c.id) ensures CauseFits(c, e) {
        var d :| d in events && d.id == e.cause.value && d.session == e.session && d.attempt <= e.attempt;
        SameIdentity(events, c, d);
      }
      forall b | b in m && m[b].cause.Some? ensures m[b].cause.value in m {
        assert m[b] in events;
      }
    }
  }

  lemma AgreeIs(events: set<Event>)
    ensures SessionsAgree(events) <==> Agreeing(events)
  {
    if SessionsAgree(events) {
      forall d, e | d in events && e in events && d.session == e.session ensures Compatible(d, e) {
        assert Agree(d, e) && Agree(e, d);
      }
    }
    if Agreeing(events) {
      forall d, e | d in events && e in events && d.session == e.session ensures Agree(d, e) {
        assert Compatible(d, e) && Compatible(e, d);
      }
    }
  }

  lemma TerminalIs(events: set<Event>, terminals: Terminals, session: string)
    ensures OneTerminal(events, terminals, session) <==> exists t :: Ends(events, terminals, session, t)
  {
    var ends := TerminalsIn(events, terminals, session);
    if t :| Ends(events, terminals, session, t) {
      assert Sole(ends, t);
    }
    if t :| Sole(ends, t) {
      assert forall u | u in events && u.session == session && u.code in terminals :: u in ends;
      assert Ends(events, terminals, session, t);
    }
  }

  lemma EndingIs(events: set<Event>, terminals: Terminals)
    ensures (forall e | e in events :: OneTerminal(events, terminals, e.session)) <==> Ending(events, terminals)
  {
    hide Ends, OneTerminal;
    forall e | e in events ensures OneTerminal(events, terminals, e.session) <==> exists t :: Ends(events, terminals, e.session, t) {
      TerminalIs(events, terminals, e.session);
    }
  }

  lemma SourcesAre(events: set<Event>)
    ensures SourcesAdvance(events) <==> Rising(events)
  {
    if Rising(events) {
      forall d, e | d in events && e in events && SameSource(d, e) && d.sequence < e.sequence ensures Advances(d, e) {
      }
    }
    if SourcesAdvance(events) {
      forall d, e | d in events && e in events && d.instance == e.instance && d.boot == e.boot && d.sequence < e.sequence
        ensures d.monotonic <= e.monotonic && d.attempt <= e.attempt
      {
        assert SameSource(d, e) && Advances(d, e);
      }
    }
  }

  lemma AcyclicIs(events: set<Event>)
    requires Consistent(events) && Closed(ById(events))
    ensures !Cyclic(ById(events)) <==> Arrangeable(events)
  {
    hide Cyclic, Closed, Consistent, Arranged;
    if q :| SetOf(q) == events && Arranged(q) {
      ArrangedLinearises(events, q);
      LinearisationIsAcyclic(ById(events), Ids(q));
    }
    if !Cyclic(ById(events)) {
      var q := ValidHasArrangement(events);
    }
  }

  lemma ValidIsSound(events: set<Event>, terminals: Terminals)
    ensures StreamValid(events, true, terminals) <==> Sound(events, terminals)
  {
    hide SessionsAgree, OneTerminal, SourcesAdvance, CausesAgree, Cyclic, Closed, Consistent, Unmistakable, Caused, Rising, Agreeing, Ending, Arrangeable;
    ConsistentIs(events);
    SourcesAre(events);
    AgreeIs(events);
    EndingIs(events, terminals);
    if Consistent(events) {
      CausesAre(events);
      if Closed(ById(events)) {
        AcyclicIs(events);
      }
    }
  }

  /** The order of a stream: it has one exactly if it is sound, and it is then
      the one chronological arrangement of its events. */
  lemma OrderMeans(events: set<Event>, terminals: Terminals, r: Result<seq<Event>, StreamError>)
    requires DeterministicOrder(events, terminals, r)
    ensures r.Ok? <==> Sound(events, terminals)
    ensures r.Ok? ==> SetOf(r.value) == events && Chronological(r.value) && forall q | SetOf(q) == events && Chronological(q) :: q == r.value
  {
    ValidIsSound(events, terminals);
    hide Sound, Chronological, Greedy, Cyclic, RulesHold, Consistent;
    if r.Ok? {
      GreedyIsChronological(events, r.value);
      forall q | SetOf(q) == events && Chronological(q) ensures q == r.value {
        ChronologicalIsUnique(events, q, r.value);
      }
    }
  }
}
