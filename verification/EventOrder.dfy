/** Deterministic causal ordering of access and update events
    (observability/event_parser.py). */
module EventOrder {
  import opened Wrappers

  // ---------- Entities ----------

  datatype EventId = EventId(text: string)

  /** What an update session reports of the artifact it installs. */
  datatype Update = Update(component: string, target: string, digest: Option<string>)

  /** `wall` is present when the clock is synchronised and carries a wall time,
      `update` exactly in an update session. `rest` stands for every field that
      only takes part in content equality. */
  datatype Event = Event(
    id: EventId,
    session: string,
    instance: string,
    boot: string,
    sequence: nat,
    attempt: nat,
    cause: Option<EventId>,
    wall: Option<int>,
    monotonic: nat,
    code: string,
    update: Option<Update>,
    rest: string)

  datatype TieKey =
    | Synced(at: int, id: EventId)
    | Unsynced(instance: string, boot: string, sequence: nat, id: EventId)

  datatype StreamError =
    | IdConflict
    | SequenceConflict
    | InvalidStream

  type Catalogue = map<EventId, Event>

  function TieBreaker(e: Event): TieKey {
    if e.wall.Some? then Synced(e.wall.value, e.id)
    else Unsynced(e.instance, e.boot, e.sequence, e.id)
  }

  // ---------- The tie-break order is a strict total order ----------

  predicate TextLess(a: string, b: string) {
    if b == "" then false
    else if a == "" then true
    else if a[0] != b[0] then a[0] < b[0]
    else TextLess(a[1..], b[1..])
  }

  predicate KeyLess(a: TieKey, b: TieKey) {
    match (a, b)
    case (Synced(at, id), Synced(at', id')) =>
      at < at' || (at == at' && TextLess(id.text, id'.text))
    case (Synced(_, _), Unsynced(_, _, _, _)) => true
    case (Unsynced(_, _, _, _), Synced(_, _)) => false
    case (Unsynced(i, t, n, id), Unsynced(i', t', n', id')) =>
      if i != i' then TextLess(i, i')
      else if t != t' then TextLess(t, t')
      else if n != n' then n < n'
      else TextLess(id.text, id'.text)
  }

  lemma {:induction false} TextTotal(a: string, b: string)
    ensures TextLess(a, b) || a == b || TextLess(b, a)
    ensures !(TextLess(a, b) && TextLess(b, a))
    ensures a == b ==> !TextLess(a, b)
    decreases |a|
  {
    if a != "" && b != "" && a[0] == b[0] {
      TextTotal(a[1..], b[1..]);
      if a[1..] == b[1..] {
        assert a == [a[0]] + a[1..] == b;
      }
    }
  }

  lemma {:induction false} TextTransitive(a: string, b: string, c: string)
    requires TextLess(a, b) && TextLess(b, c)
    ensures TextLess(a, c)
    decreases |a|
  {
    if a != "" && a[0] == b[0] == c[0] {
      TextTransitive(a[1..], b[1..], c[1..]);
    }
  }

  lemma KeyTotal(a: TieKey, b: TieKey)
    ensures KeyLess(a, b) || a == b || KeyLess(b, a)
    ensures !(KeyLess(a, b) && KeyLess(b, a))
    ensures !KeyLess(a, a)
  {
    TextTotal(a.id.text, b.id.text);
    TextTotal(a.id.text, a.id.text);
    if a.Unsynced? && b.Unsynced? {
      TextTotal(a.instance, b.instance);
      TextTotal(a.boot, b.boot);
    }
  }

  lemma KeyTransitive(a: TieKey, b: TieKey, c: TieKey)
    requires KeyLess(a, b) && KeyLess(b, c)
    ensures KeyLess(a, c)
  {
    if TextLess(a.id.text, b.id.text) && TextLess(b.id.text, c.id.text) {
      TextTransitive(a.id.text, b.id.text, c.id.text);
    }
    if a.Unsynced? && b.Unsynced? && c.Unsynced? {
      TextTotal(a.instance, b.instance);
      TextTotal(a.boot, b.boot);
      if TextLess(a.instance, b.instance) && TextLess(b.instance, c.instance) {
        TextTransitive(a.instance, b.instance, c.instance);
        TextTotal(a.instance, c.instance);
      }
      if TextLess(a.boot, b.boot) && TextLess(b.boot, c.boot) {
        TextTransitive(a.boot, b.boot, c.boot);
        TextTotal(a.boot, c.boot);
      }
    }
  }

  // ---------- Streams, catalogues and edges ----------

  predicate SamePosition(d: Event, e: Event) {
    d.instance == e.instance && d.boot == e.boot && d.sequence == e.sequence
  }

  predicate SameSource(d: Event, e: Event) {
    d.instance == e.instance && d.boot == e.boot
  }

  /** One content per identity and one identity per source position. */
  ghost predicate Consistent(events: set<Event>) {
    forall d, e | d in events && e in events ::
      (d.id == e.id ==> d == e) && (SamePosition(d, e) ==> d.id == e.id)
  }

  ghost predicate WellKeyed(m: Catalogue) {
    && (forall a | a in m :: m[a].id == a)
    && (forall a, b | a in m && b in m :: SamePosition(m[a], m[b]) ==> a == b)
  }

  ghost function ById(events: set<Event>): (m: Catalogue)
    requires Consistent(events)
    ensures WellKeyed(m)
    ensures forall e | e in events :: e.id in m && m[e.id] == e
    ensures forall a | a in m :: m[a] in events
  {
    map e | e in events :: e.id := e
  }

  /** `b` directly follows `a` in the sequence of one source boot. */
  ghost predicate Adjacent(m: Catalogue, a: EventId, b: EventId) {
    && a in m && b in m && SameSource(m[a], m[b])
    && m[a].sequence < m[b].sequence
    && forall c | c in m && SameSource(m[a], m[c]) ::
         !(m[a].sequence < m[c].sequence < m[b].sequence)
  }

  ghost predicate Edge(m: Catalogue, a: EventId, b: EventId) {
    b in m && (m[b].cause == Some(a) || Adjacent(m, a, b))
  }

  ghost predicate KnownEdge(m: Catalogue, a: EventId, b: EventId) {
    a in m && Edge(m, a, b)
  }

  ghost predicate Closed(m: Catalogue) {
    forall b | b in m && m[b].cause.Some? :: m[b].cause.value in m
  }

  ghost predicate IsWalk(m: Catalogue, p: seq<EventId>) {
    forall i, j | 0 <= i && j == i + 1 < |p| :: Edge(m, p[i], p[j])
  }

  /** A walk with at least one step. */
  ghost predicate Leads(m: Catalogue, p: seq<EventId>, a: EventId, b: EventId) {
    |p| >= 2 && p[0] == a && p[|p| - 1] == b && IsWalk(m, p)
  }

  ghost predicate Precedes(m: Catalogue, a: EventId, b: EventId) {
    a == b || exists p :: Leads(m, p, a, b)
  }

  /** Some walk over known events comes back to its start. */
  ghost predicate Cyclic(m: Catalogue) {
    exists a, p :: a in m && Leads(m, p, a, a) && (forall x | x in p :: x in m)
  }

  ghost predicate Distinct(q: seq<EventId>) {
    forall i, j | 0 <= i < j < |q| :: q[i] != q[j]
  }

  ghost function Members(q: seq<EventId>): set<EventId> {
    set x | x in q
  }

  ghost predicate Respects(m: Catalogue, q: seq<EventId>) {
    forall i, j | 0 <= i < |q| && 0 <= j < |q| && Edge(m, q[i], q[j]) :: i < j
  }

  /** A permutation of the catalogue that puts every cause and every earlier
      position of a source first. */
  ghost predicate Linearisation(m: Catalogue, q: seq<EventId>) {
    Distinct(q) && Members(q) == m.Keys && Respects(m, q)
  }

  ghost predicate Before(m: Catalogue, q: seq<EventId>, r: seq<EventId>, k: nat) {
    && k < |q| && k < |r| && q[..k] == r[..k]
    && q[k] in m && r[k] in m
    && KeyLess(TieBreaker(m[q[k]]), TieBreaker(m[r[k]]))
  }

  /** Lexicographically least among all linearisations. */
  ghost predicate LeastLinearisation(m: Catalogue, q: seq<EventId>) {
    && Linearisation(m, q)
    && forall r | Linearisation(m, r) :: r == q || exists k :: Before(m, q, r, k)
  }

  // ---------- Consequences of being a linearisation ----------

  lemma {:induction false} WalkAdvances(m: Catalogue, q: seq<EventId>, p: seq<EventId>, from: nat, to: nat)
    requires Linearisation(m, q)
    requires |p| >= 2 && IsWalk(m, p) && p[0] in m
    requires from < |q| && q[from] == p[0]
    requires to < |q| && q[to] == p[|p| - 1]
    ensures from < to
    decreases |p|
  {
    assert Edge(m, p[0], p[1]);
    assert p[1] in Members(q);
    var next :| 0 <= next < |q| && q[next] == p[1];
    if |p| > 2 {
      assert IsWalk(m, p[1..]) by {
        forall i, j | 0 <= i && j == i + 1 < |p[1..]| ensures Edge(m, p[1..][i], p[1..][j]) {
          assert Edge(m, p[i + 1], p[j + 1]);
        }
      }
      WalkAdvances(m, q, p[1..], next, to);
    }
  }

  /** Strict causal precedence is an earlier position in every linearisation. */
  lemma PrecedenceIsOrder(m: Catalogue, q: seq<EventId>, a: EventId, b: EventId, i: nat, j: nat)
    requires Linearisation(m, q)
    requires Precedes(m, a, b) && a != b
    requires i < |q| && q[i] == a && j < |q| && q[j] == b
    ensures i < j
  {
    var p :| Leads(m, p, a, b);
    assert a in Members(q);
    WalkAdvances(m, q, p, i, j);
  }

  lemma LinearisationIsAcyclic(m: Catalogue, q: seq<EventId>)
    requires Linearisation(m, q)
    ensures !Cyclic(m)
  {
    if a, p :| a in m && Leads(m, p, a, a) {
      assert a in Members(q);
      var i :| 0 <= i < |q| && q[i] == a;
      WalkAdvances(m, q, p, i, i);
      assert false;
    }
  }

  // ---------- A set in which everyone waits for a member holds a cycle ----------

  ghost predicate HasParentIn(m: Catalogue, stuck: set<EventId>, b: EventId) {
    exists a :: a in stuck && Edge(m, a, b)
  }

  ghost predicate Waits(m: Catalogue, stuck: set<EventId>) {
    forall b {:trigger HasParentIn(m, stuck, b)} | b in stuck :: HasParentIn(m, stuck, b)
  }

  lemma {:induction false} BackwardWalk(m: Catalogue, stuck: set<EventId>, steps: nat) returns (p: seq<EventId>)
    requires stuck != {} && Waits(m, stuck)
    ensures |p| == steps + 1 && IsWalk(m, p) && forall x | x in p :: x in stuck
  {
    if steps == 0 {
      var x :| x in stuck;
      p := [x];
    } else {
      var rest := BackwardWalk(m, stuck, steps - 1);
      assert HasParentIn(m, stuck, rest[0]);
      var a :| a in stuck && Edge(m, a, rest[0]);
      p := [a] + rest;
      forall i, j | 0 <= i && j == i + 1 < |p| ensures Edge(m, p[i], p[j]) {
        if i > 0 { assert Edge(m, rest[i - 1], rest[j - 1]); }
      }
    }
  }

  lemma {:induction false} DistinctSize(q: seq<EventId>)
    requires Distinct(q)
    ensures |Members(q)| == |q|
  {
    if q != [] {
      var front := q[..|q| - 1];
      DistinctSize(front);
      assert q == front + [q[|q| - 1]];
      assert Members(q) == Members(front) + {q[|q| - 1]};
      assert q[|q| - 1] !in Members(front);
    } else {
      assert Members(q) == {};
    }
  }

  lemma {:induction false} SubsetSize(a: set<EventId>, b: set<EventId>)
    requires a <= b
    ensures |a| <= |b|
    ensures |a| == |b| ==> a == b
  {
    assert |b| == |a| + |b - a| by { assert b == a + (b - a); }
    if |b - a| == 0 { assert b == a + (b - a); }
  }

  lemma StuckIsCyclic(m: Catalogue, stuck: set<EventId>)
    requires stuck != {} && stuck <= m.Keys && Waits(m, stuck)
    ensures Cyclic(m)
  {
    var p := BackwardWalk(m, stuck, |stuck|);
    if Distinct(p) {
      DistinctSize(p);
      assert Members(p) <= stuck;
      SubsetSize(Members(p), stuck);
      assert false;
    }
    var i, j :| 0 <= i < j < |p| && p[i] == p[j];
    var loop := p[i..j + 1];
    forall k, l | 0 <= k && l == k + 1 < |loop| ensures Edge(m, loop[k], loop[l]) {
      assert Edge(m, p[i + k], p[i + l]);
    }
    assert Leads(m, loop, p[i], p[i]);
    forall x | x in loop ensures x in m {
      assert x in p;
    }
  }

  // ---------- The least linearisation is unique ----------

  lemma BeforeIsAsymmetric(m: Catalogue, q: seq<EventId>, r: seq<EventId>, k: nat, l: nat)
    requires Before(m, q, r, k)
    ensures !Before(m, r, q, l)
  {
    KeyTotal(TieBreaker(m[q[k]]), TieBreaker(m[r[k]]));
    if l < k {
      assert q[..k][l] == r[..k][l];
      if q[l] in m {
        KeyTotal(TieBreaker(m[q[l]]), TieBreaker(m[q[l]]));
      }
    } else if k < l < |q| && l < |r| {
      assert q[..l][k] != r[..l][k];
    }
  }

  lemma LeastIsUnique(m: Catalogue, q: seq<EventId>, r: seq<EventId>)
    requires LeastLinearisation(m, q) && LeastLinearisation(m, r)
    ensures q == r
  {
    if q != r {
      var k :| Before(m, q, r, k);
      var l :| Before(m, r, q, l);
      BeforeIsAsymmetric(m, q, r, k, l);
    }
  }

  /** Every position holds the least key among the events whose parents are
      all placed. */
  ghost predicate Greedy(m: Catalogue, q: seq<EventId>) {
    forall k, b | 0 <= k < |q| && Available(m, q[..k], b) ::
      q[k] in m && (b == q[k] || KeyLess(TieBreaker(m[q[k]]), TieBreaker(m[b])))
  }

  ghost predicate Available(m: Catalogue, done: seq<EventId>, b: EventId) {
    b in m && b !in done && forall a | KnownEdge(m, a, b) :: a in done
  }

  lemma {:induction false} FirstDifference<T>(q: seq<T>, r: seq<T>) returns (k: nat)
    requires |q| == |r| && q != r
    ensures k < |q| && q[..k] == r[..k] && q[k] != r[k]
  {
    k := 0;
    while q[k] == r[k]
      invariant k < |q| && q[..k] == r[..k]
      decreases |q| - k
    {
      assert q == q[..k + 1] + q[k + 1..] && r == r[..k + 1] + r[k + 1..];
      assert q[..k + 1] == q[..k] + [q[k]] == r[..k] + [r[k]] == r[..k + 1];
      k := k + 1;
    }
  }

  lemma GreedyIsLeast(m: Catalogue, q: seq<EventId>)
    requires Linearisation(m, q) && Greedy(m, q)
    ensures LeastLinearisation(m, q)
  {
    forall r | Linearisation(m, r) && r != q ensures exists k :: Before(m, q, r, k) {
      DistinctSize(q);
      DistinctSize(r);
      var k := FirstDifference(q, r);
      assert r[k] in Members(r) && q[k] in Members(q);
      forall a | KnownEdge(m, a, r[k]) ensures a in q[..k] {
        assert a in Members(r);
        var i :| 0 <= i < |r| && r[i] == a;
        assert Edge(m, r[i], r[k]);
        assert r[..k][i] == a;
      }
      assert r[k] !in r[..k];
      assert Available(m, q[..k], r[k]);
      assert Before(m, q, r, k);
    }
  }

  // ---------- Deduplication ----------

  ghost function SetOf(events: seq<Event>): set<Event> {
    set e | e in events
  }

  ghost predicate DistinctIds(events: seq<Event>) {
    forall i, j | 0 <= i < j < |events| :: events[i].id != events[j].id
  }

  lemma SetOfPrefix(events: seq<Event>, i: nat)
    requires i < |events|
    ensures SetOf(events[..i + 1]) == SetOf(events[..i]) + {events[i]}
    ensures SetOf(events[..i + 1]) <= SetOf(events)
  {
    assert events[..i + 1] == events[..i] + [events[i]];
  }

  type Positions = map<(string, string, nat), Event>

  function PositionOf(e: Event): (string, string, nat) {
    (e.instance, e.boot, e.sequence)
  }

  /** The two dictionaries index exactly the events kept so far. */
  ghost predicate Indexed(unique: seq<Event>, byEventId: Catalogue, byPosition: Positions) {
    && DistinctIds(unique)
    && Consistent(SetOf(unique))
    && (forall e | e in unique :: e.id in byEventId && byEventId[e.id] == e)
    && (forall a | a in byEventId :: byEventId[a] in unique && byEventId[a].id == a)
    && (forall e | e in unique :: PositionOf(e) in byPosition && byPosition[PositionOf(e)] == e)
    && (forall p | p in byPosition :: byPosition[p] in unique && PositionOf(byPosition[p]) == p)
  }

  lemma IndexNew(unique: seq<Event>, byEventId: Catalogue, byPosition: Positions, event: Event)
    requires Indexed(unique, byEventId, byPosition)
    requires event.id !in byEventId && PositionOf(event) !in byPosition
    ensures Indexed(unique + [event], byEventId[event.id := event], byPosition[PositionOf(event) := event])
    ensures SetOf(unique + [event]) == SetOf(unique) + {event}
  {
    var next := unique + [event];
    forall d, e | d in SetOf(next) && e in SetOf(next)
      ensures (d.id == e.id ==> d == e) && (SamePosition(d, e) ==> d.id == e.id)
    {
      assert (d in unique || d == event) && (e in unique || e == event);
    }
  }

  /** Accepts exactly the consistent streams and keeps each event once. */
  method Deduplicate(events: seq<Event>) returns (r: Result<seq<Event>, StreamError>)
    ensures r.Ok? <==> Consistent(SetOf(events))
    ensures r.Ok? ==> DistinctIds(r.value) && SetOf(r.value) == SetOf(events)
  {
    var byEventId: Catalogue := map[];
    var byPosition: Positions := map[];
    var unique: seq<Event> := [];
    for i := 0 to |events|
      invariant Indexed(unique, byEventId, byPosition)
      invariant SetOf(unique) == SetOf(events[..i])
    {
      var event := events[i];
      SetOfPrefix(events, i);
      assert event in SetOf(events);
      if event.id in byEventId {
        var prior := byEventId[event.id];
        assert prior in SetOf(unique);
        if prior != event {
          return Err(IdConflict);
        }
      } else {
        if PositionOf(event) in byPosition {
          var prior := byPosition[PositionOf(event)];
          assert prior in SetOf(unique) && SamePosition(prior, event);
          return Err(SequenceConflict);
        }
        IndexNew(unique, byEventId, byPosition, event);
        byEventId := byEventId[event.id := event];
        byPosition := byPosition[PositionOf(event) := event];
        unique := unique + [event];
      }
    }
    assert events[..|events|] == events;
    r := Ok(unique);
  }

  // ---------- The edge dictionary ----------

  type EdgeMap = map<EventId, set<EventId>>

  function Children(edges: EdgeMap, a: EventId): set<EventId> {
    if a in edges then edges[a] else {}
  }

  function AddEdge(edges: EdgeMap, a: EventId, b: EventId): (r: EdgeMap)
    ensures forall x, y :: y in Children(r, x) <==> y in Children(edges, x) || (x == a && y == b)
  {
    edges[a := Children(edges, a) + {b}]
  }

  ghost predicate EdgesMatch(m: Catalogue, edges: EdgeMap, known: bool) {
    forall a, b :: b in Children(edges, a) <==> Edge(m, a, b) && (known ==> a in m)
  }

  predicate Ascending(group: seq<Event>) {
    forall i, j | 0 <= i < j < |group| :: group[i].sequence < group[j].sequence
  }

  function InsertBySequence(group: seq<Event>, event: Event): (r: seq<Event>)
    requires Ascending(group)
    requires forall e | e in group :: e.sequence != event.sequence
    ensures Ascending(r)
    ensures forall e :: e in r <==> e in group || e == event
  {
    if group == [] || event.sequence < group[0].sequence then [event] + group
    else
      var rest := InsertBySequence(group[1..], event);
      assert forall e | e in rest :: group[0].sequence < e.sequence;
      [group[0]] + rest
  }

  /** The events of one source boot in sequence order. */
  function SortBySequence(group: seq<Event>): (r: seq<Event>)
    requires forall i, j | 0 <= i < j < |group| :: group[i].sequence != group[j].sequence
    ensures Ascending(r)
    ensures forall e :: e in r <==> e in group
  {
    if group == [] then []
    else
      var front := group[..|group| - 1];
      assert group == front + [group[|group| - 1]];
      InsertBySequence(SortBySequence(front), group[|group| - 1])
  }

  /** Neighbours in the sorted group of a source are exactly its adjacent pairs. */
  lemma NeighboursAreAdjacent(m: Catalogue, group: seq<Event>, a: EventId, b: EventId)
    requires WellKeyed(m) && Ascending(group)
    requires forall e | e in group :: e.id in m && m[e.id] == e
    requires forall d, c | d in group && c in m :: SameSource(d, m[c]) <==> m[c] in group
    ensures (exists k :: 0 <= k < |group| - 1 && group[k].id == a && group[k + 1].id == b)
            <==> Adjacent(m, a, b) && m[a] in group
  {
    if Adjacent(m, a, b) && m[a] in group {
      assert m[b].id == b && m[b] in group;
      var i :| 0 <= i < |group| && group[i] == m[a];
      var j :| 0 <= j < |group| && group[j] == m[b];
      if i + 1 < |group| {
        var c := group[i + 1];
        assert c in group && SameSource(m[a], m[c.id]);
      }
      assert j == i + 1;
      assert group[i].id == a && group[i + 1].id == b;
    }
    if k :| 0 <= k < |group| - 1 && group[k].id == a && group[k + 1].id == b {
      assert group[k] in group && group[k + 1] in group;
      forall c | c in m && SameSource(m[a], m[c])
        ensures !(m[a].sequence < m[c].sequence < m[b].sequence)
      {
        assert m[c].id == c && m[c] in group;
        var i :| 0 <= i < |group| && group[i] == m[c];
        assert i <= k || k + 1 <= i;
      }
    }
  }

  type Source = (string, string)

  function SourceOf(e: Event): Source { (e.instance, e.boot) }

  /** `groups` splits the first events of a stream by source boot. */
  ghost predicate Grouped(groups: map<Source, seq<Event>>, events: seq<Event>) {
    && (forall e | e in events :: SourceOf(e) in groups && e in groups[SourceOf(e)])
    && (forall s, e | s in groups && e in groups[s] :: e in events && SourceOf(e) == s)
    && (forall s | s in groups ::
          forall i, j | 0 <= i < j < |groups[s]| :: groups[s][i].sequence != groups[s][j].sequence)
  }

  ghost predicate CauseEdge(m: Catalogue, a: EventId, b: EventId) {
    b in m && m[b].cause == Some(a)
  }

  ghost predicate KnowsStream(m: Catalogue, events: seq<Event>) {
    && WellKeyed(m)
    && DistinctIds(events)
    && (forall e | e in events :: e.id in m && m[e.id] == e)
    && (forall a | a in m :: m[a] in events)
  }

  /** First loop of every graph walk: groups by source and cause edges. */
  method CollectCauses(events: seq<Event>, known: bool, ghost m: Catalogue)
    returns (groups: map<Source, seq<Event>>, edges: EdgeMap)
    requires KnowsStream(m, events)
    ensures Grouped(groups, events)
    ensures forall a, b :: b in Children(edges, a) <==> CauseEdge(m, a, b) && (known ==> a in m)
  {
    hide Grouped;
    groups, edges := map[], map[];
    assert Grouped(groups, events[..0]) by {
      NothingGrouped();
    }
    var ids := set e | e in events :: e.id;
    for i := 0 to |events|
      invariant Grouped(groups, events[..i])
      invariant forall a, b ::
          b in Children(edges, a) <==>
          CauseEdge(m, a, b) && m[b] in events[..i] && (known ==> a in m)
    {
      var event := events[i];
      var source := SourceOf(event);
      assert events[..i + 1] == events[..i] + [event];
      assert event !in events[..i];
      var group := if source in groups then groups[source] else [];
      GroupStep(groups, events, i, m);
      groups := groups[source := group + [event]];
      if event.cause.Some? && (known ==> event.cause.value in ids) {
        edges := AddEdge(edges, event.cause.value, event.id);
      }
    }
    assert events[..|events|] == events;
  }

  lemma NothingGrouped()
    ensures Grouped(map[], [])
  {
  }

  /** One more event, in the group of its source. */
  lemma GroupStep(groups: map<Source, seq<Event>>, events: seq<Event>, i: nat, m: Catalogue)
    requires i < |events| && KnowsStream(m, events) && Grouped(groups, events[..i])
    ensures var source := SourceOf(events[i]);
            Grouped(groups[source := (if source in groups then groups[source] else []) + [events[i]]], events[..i + 1])
  {
    var event := events[i];
    var source := SourceOf(event);
    var group := if source in groups then groups[source] else [];
    assert events[..i + 1] == events[..i] + [event];
    forall d | d in group ensures d.sequence != event.sequence {
      assert d in events[..i] && d.id in m && event.id in m;
      assert d.id != event.id;
    }
  }

  method LinkNeighbours(edges: EdgeMap, group: seq<Event>) returns (r: EdgeMap)
    ensures forall a, b :: b in Children(r, a) <==>
        b in Children(edges, a)
        || exists k :: 0 <= k < |group| - 1 && group[k].id == a && group[k + 1].id == b
  {
    r := edges;
    var i := 0;
    while i + 1 < |group|
      invariant i <= |group|
      invariant forall a, b :: b in Children(r, a) <==>
        b in Children(edges, a)
        || exists k :: 0 <= k < i && k < |group| - 1 && group[k].id == a && group[k + 1].id == b
    {
      r := AddEdge(r, group[i].id, group[i + 1].id);
      i := i + 1;
    }
  }

  method LinkSource(edges: EdgeMap, group: seq<Event>, source: Source, ghost m: Catalogue) returns (r: EdgeMap)
    requires WellKeyed(m)
    requires forall i, j | 0 <= i < j < |group| :: group[i].sequence != group[j].sequence
    requires forall e :: e in group <==> e.id in m && m[e.id] == e && SourceOf(e) == source
    ensures forall a, b :: b in Children(r, a) <==>
        b in Children(edges, a) || (Adjacent(m, a, b) && SourceOf(m[a]) == source)
  {
    var ordered := SortBySequence(group);
    forall a, b
      ensures (exists k :: 0 <= k < |ordered| - 1 && ordered[k].id == a && ordered[k + 1].id == b)
              <==> Adjacent(m, a, b) && SourceOf(m[a]) == source
    {
      NeighboursAreAdjacent(m, ordered, a, b);
    }
    r := LinkNeighbours(edges, ordered);
  }

  /** The edge dictionary of a stream: causes plus per-source neighbours. */
  method BuildEdges(events: seq<Event>, known: bool, ghost m: Catalogue) returns (edges: EdgeMap)
    requires KnowsStream(m, events)
    ensures EdgesMatch(m, edges, known)
  {
    var groups;
    groups, edges := CollectCauses(events, known, m);
    var waiting := groups.Keys;
    while waiting != {}
      invariant waiting <= groups.Keys
      invariant forall a, b :: b in Children(edges, a) <==>
          (CauseEdge(m, a, b) && (known ==> a in m))
          || (Adjacent(m, a, b) && SourceOf(m[a]) !in waiting)
      decreases waiting
    {
      var source :| source in waiting;
      forall e ensures e in groups[source] <==> e.id in m && m[e.id] == e && SourceOf(e) == source {
        if e.id in m { assert m[e.id] in events; }
      }
      edges := LinkSource(edges, groups[source], source, m);
      waiting := waiting - {source};
    }
    forall a, b | Adjacent(m, a, b) ensures SourceOf(m[a]) in groups {
      assert m[a] in events;
    }
  }

  // ---------- Kahn's algorithm: state, start and step ----------

  type Degrees = map<EventId, int>

  ghost function Parents(nodes: set<EventId>, edges: EdgeMap, b: EventId): set<EventId> {
    set a | a in nodes && b in Children(edges, a)
  }

  ghost function Unplaced(nodes: set<EventId>, edges: EdgeMap, done: seq<EventId>, b: EventId): set<EventId> {
    Parents(nodes, edges, b) - Members(done)
  }

  ghost predicate Within(nodes: set<EventId>, edges: EdgeMap) {
    forall a, b | b in Children(edges, a) :: a in nodes && b in nodes
  }

  ghost predicate Counts(nodes: set<EventId>, edges: EdgeMap, done: seq<EventId>, indegree: Degrees) {
    indegree.Keys == nodes && forall b | b in nodes :: indegree[b] == |Unplaced(nodes, edges, done, b)|
  }

  ghost predicate ParentsFirst(nodes: set<EventId>, edges: EdgeMap, done: seq<EventId>) {
    forall i | 0 <= i < |done| :: Parents(nodes, edges, done[i]) <= Members(done[..i])
  }

  ghost function ReadyNodes(done: seq<EventId>, indegree: Degrees): set<EventId> {
    set b | b in indegree && b !in done && indegree[b] == 0
  }

  ghost predicate Kahn(nodes: set<EventId>, edges: EdgeMap, done: seq<EventId>, indegree: Degrees, ready: set<EventId>) {
    && Within(nodes, edges)
    && Distinct(done) && Members(done) <= nodes
    && Counts(nodes, edges, done, indegree)
    && ParentsFirst(nodes, edges, done)
    && ready == ReadyNodes(done, indegree)
  }

  /** One pass of the counting loop over `edges.values()`. */
  function CountedChildren(children: set<EventId>, degrees: Degrees, step: int): Degrees {
    map b | b in degrees :: if b in children then degrees[b] + step else degrees[b]
  }

  lemma ParentsStep(done: set<EventId>, edges: EdgeMap, a: EventId, b: EventId)
    requires a !in done
    ensures |Parents(done + {a}, edges, b)|
            == |Parents(done, edges, b)| + if b in Children(edges, a) then 1 else 0
  {
    assert Parents(done + {a}, edges, b)
           == Parents(done, edges, b) + if b in Children(edges, a) then {a} else {};
  }

  ghost predicate Counted(nodes: set<EventId>, edges: EdgeMap, counted: set<EventId>, indegree: Degrees) {
    indegree.Keys == nodes && forall b | b in nodes :: indegree[b] == |Parents(counted, edges, b)|
  }

  lemma CountPass(nodes: set<EventId>, edges: EdgeMap, counted: set<EventId>, indegree: Degrees, a: EventId)
    requires Counted(nodes, edges, counted, indegree) && a !in counted
    ensures Counted(nodes, edges, counted + {a}, CountedChildren(Children(edges, a), indegree, 1))
  {
    forall b | b in nodes
      ensures |Parents(counted + {a}, edges, b)|
              == |Parents(counted, edges, b)| + if b in Children(edges, a) then 1 else 0
    {
      ParentsStep(counted, edges, a, b);
    }
  }

  lemma CountNone(nodes: set<EventId>, edges: EdgeMap)
    ensures Counted(nodes, edges, {}, map b | b in nodes :: 0)
  {
    forall b ensures Parents({}, edges, b) == {} {}
  }

  lemma CountAll(nodes: set<EventId>, edges: EdgeMap, indegree: Degrees)
    requires Counted(nodes, edges, nodes, indegree)
    ensures Counts(nodes, edges, [], indegree)
  {
    forall b ensures Unplaced(nodes, edges, [], b) == Parents(nodes, edges, b) {}
  }

  method CountParents(nodes: set<EventId>, edges: EdgeMap) returns (indegree: Degrees)
    ensures Counts(nodes, edges, [], indegree)
  {
    indegree := map b | b in nodes :: 0;
    ghost var counted: set<EventId> := {};
    var rest := nodes;
    CountNone(nodes, edges);
    while rest != {}
      invariant rest <= nodes && counted == nodes - rest
      invariant Counted(nodes, edges, counted, indegree)
      decreases rest
    {
      var a :| a in rest;
      var degrees := CountedChildren(Children(edges, a), indegree, 1);
      CountPass(nodes, edges, counted, indegree, a);
      counted := counted + {a};
      indegree := degrees;
      rest := rest - {a};
    }
    assert counted == nodes;
    CountAll(nodes, edges, indegree);
  }

  /** Inner loop: every child of a placed event loses one waiting parent. */
  ghost function Released(children: set<EventId>, indegree: Degrees): set<EventId> {
    set b | b in children && b in indegree && indegree[b] == 0
  }

  method ReleaseChildren(children: set<EventId>, degrees: Degrees) returns (indegree: Degrees, released: set<EventId>)
    requires children <= degrees.Keys
    ensures indegree == CountedChildren(children, degrees, -1)
    ensures released == Released(children, indegree)
  {
    indegree, released := degrees, {};
    var rest := children;
    while rest != {}
      invariant rest <= children
      invariant indegree == CountedChildren(children - rest, degrees, -1)
      invariant released == set b | b in children - rest && indegree[b] == 0
      decreases rest
    {
      var child :| child in rest;
      indegree := indegree[child := indegree[child] - 1];
      if indegree[child] == 0 {
        released := released + {child};
      }
      rest := rest - {child};
    }
    assert children - rest == children;
  }

  lemma UnplacedStep(nodes: set<EventId>, edges: EdgeMap, done: seq<EventId>, x: EventId, b: EventId)
    requires x in nodes && x !in done
    ensures |Unplaced(nodes, edges, done + [x], b)|
            == |Unplaced(nodes, edges, done, b)| - if b in Children(edges, x) then 1 else 0
  {
    assert Members(done + [x]) == Members(done) + {x};
    assert Unplaced(nodes, edges, done + [x], b) == Unplaced(nodes, edges, done, b) - {x};
    assert x in Unplaced(nodes, edges, done, b) <==> b in Children(edges, x);
  }

  lemma CountsStep(nodes: set<EventId>, edges: EdgeMap, done: seq<EventId>, degrees: Degrees, x: EventId)
    requires Counts(nodes, edges, done, degrees)
    requires x in nodes && x !in done
    ensures Counts(nodes, edges, done + [x], CountedChildren(Children(edges, x), degrees, -1))
  {
    hide Unplaced;
    forall b | b in nodes
      ensures |Unplaced(nodes, edges, done + [x], b)|
              == |Unplaced(nodes, edges, done, b)| - if b in Children(edges, x) then 1 else 0
    {
      UnplacedStep(nodes, edges, done, x, b);
    }
  }

  /** A child of a node that is ready now is neither placed nor ready yet. */
  lemma ChildrenWait(nodes: set<EventId>, edges: EdgeMap, done: seq<EventId>, degrees: Degrees, x: EventId, b: EventId)
    requires Kahn(nodes, edges, done, degrees, ReadyNodes(done, degrees))
    requires x in ReadyNodes(done, degrees) && b in Children(edges, x)
    ensures b in nodes && b !in done && b != x && degrees[b] > 0
  {
    assert x in Parents(nodes, edges, b);
    assert x in Unplaced(nodes, edges, done, b);
    forall i | 0 <= i < |done| ensures done[i] != b {
      assert x !in Members(done[..i]);
    }
  }

  lemma ParentsPlaced(nodes: set<EventId>, edges: EdgeMap, done: seq<EventId>, degrees: Degrees, x: EventId)
    requires Counts(nodes, edges, done, degrees) && x in nodes && degrees[x] == 0
    ensures Parents(nodes, edges, x) <= Members(done)
  {
    hide Parents, Members;
    assert |Unplaced(nodes, edges, done, x)| == 0;
    forall a | a in Parents(nodes, edges, x) ensures a in Members(done) {
      assert a !in Members(done) ==> a in Unplaced(nodes, edges, done, x);
    }
  }

  lemma ParentsFirstStep(nodes: set<EventId>, edges: EdgeMap, done: seq<EventId>, degrees: Degrees, x: EventId)
    requires Counts(nodes, edges, done, degrees) && ParentsFirst(nodes, edges, done)
    requires x in nodes && degrees[x] == 0
    ensures ParentsFirst(nodes, edges, done + [x])
  {
    hide Parents, Members, Counts;
    ParentsPlaced(nodes, edges, done, degrees, x);
    var next := done + [x];
    forall i | 0 <= i < |next| ensures Parents(nodes, edges, next[i]) <= Members(next[..i]) {
      if i == |done| {
        assert next[..i] == done;
      } else {
        assert next[..i] == done[..i] && next[i] == done[i];
      }
    }
  }

  lemma PlaceOne(nodes: set<EventId>, done: seq<EventId>, x: EventId)
    requires Distinct(done) && Members(done) <= nodes && x in nodes && x !in done
    ensures Distinct(done + [x]) && Members(done + [x]) <= nodes
  {
  }

  lemma KahnStep(nodes: set<EventId>, edges: EdgeMap, done: seq<EventId>, degrees: Degrees, ready: set<EventId>,
                 x: EventId)
    requires Kahn(nodes, edges, done, degrees, ready) && x in ready
    ensures var indegree := CountedChildren(Children(edges, x), degrees, -1);
            var released := Released(Children(edges, x), indegree);
            && Kahn(nodes, edges, done + [x], indegree, ready - {x} + released)
            && released !! ready
  {
    PlaceOne(nodes, done, x);
    CountsStep(nodes, edges, done, degrees, x);
    ParentsFirstStep(nodes, edges, done, degrees, x);
    forall b | b in Children(edges, x) ensures b in nodes && b !in done && b != x && degrees[b] > 0 {
      ChildrenWait(nodes, edges, done, degrees, x, b);
    }
    ReadyStep(done, degrees, Children(edges, x), x);
  }

  lemma ReadyStep(done: seq<EventId>, degrees: Degrees, children: set<EventId>, x: EventId)
    requires x in ReadyNodes(done, degrees)
    requires forall b | b in children :: b in degrees && b !in done && b != x && degrees[b] > 0
    ensures var indegree := CountedChildren(children, degrees, -1);
            var released := Released(children, indegree);
            && ReadyNodes(done + [x], indegree) == ReadyNodes(done, degrees) - {x} + released
            && released !! ReadyNodes(done, degrees)
  {
  }

  lemma KahnStops(nodes: set<EventId>, edges: EdgeMap, done: seq<EventId>, indegree: Degrees)
    requires Kahn(nodes, edges, done, indegree, {})
    ensures |done| == |nodes| ==> Members(done) == nodes
    ensures |done| != |nodes| ==> nodes - Members(done) != {}
    ensures forall b | b in nodes - Members(done) :: Unplaced(nodes, edges, done, b) != {}
  {
    DistinctSize(done);
    SubsetSize(Members(done), nodes);
    forall b | b in nodes - Members(done) ensures Unplaced(nodes, edges, done, b) != {} {
      assert b !in ReadyNodes(done, indegree);
    }
  }

  // ---------- Back to the catalogue ----------

  /** Edges join known events only, as they do in a closed catalogue. */
  ghost predicate GraphOf(m: Catalogue, edges: EdgeMap) {
    forall a, b :: b in Children(edges, a) <==> KnownEdge(m, a, b)
  }

  lemma AllPlaced(m: Catalogue, edges: EdgeMap, done: seq<EventId>)
    requires GraphOf(m, edges) && ParentsFirst(m.Keys, edges, done)
    requires Distinct(done) && Members(done) == m.Keys
    ensures Linearisation(m, done)
  {
    forall i, j | 0 <= i < |done| && 0 <= j < |done| && Edge(m, done[i], done[j]) ensures i < j {
      assert done[i] in Members(done) && KnownEdge(m, done[i], done[j]);
      assert done[i] in Parents(m.Keys, edges, done[j]);
      assert done[i] in Members(done[..j]);
    }
  }

  lemma SomeStuck(m: Catalogue, edges: EdgeMap, done: seq<EventId>)
    requires GraphOf(m, edges)
    requires m.Keys - Members(done) != {}
    requires forall b | b in m.Keys - Members(done) :: Unplaced(m.Keys, edges, done, b) != {}
    ensures Cyclic(m)
  {
    var stuck := m.Keys - Members(done);
    forall b | b in stuck ensures HasParentIn(m, stuck, b) {
      var a :| a in Unplaced(m.Keys, edges, done, b);
      assert KnownEdge(m, a, b) && a in stuck;
    }
    StuckIsCyclic(m, stuck);
  }

  /** When nothing is ready, everything is placed exactly if there is no cycle. */
  lemma CountingDecides(m: Catalogue, edges: EdgeMap, done: seq<EventId>, indegree: Degrees)
    requires GraphOf(m, edges) && Kahn(m.Keys, edges, done, indegree, {})
    ensures |done| == |m| <==> !Cyclic(m)
    ensures |done| == |m| ==> Linearisation(m, done)
  {
    KahnStops(m.Keys, edges, done, indegree);
    if |done| == |m| {
      AllPlaced(m, edges, done);
      LinearisationIsAcyclic(m, done);
    } else {
      SomeStuck(m, edges, done);
    }
  }

  // ---------- What causes, sources and sessions must agree on ----------

  const FAILED: string := "UPDATE_SESSION_FAILED"

  /** A cause is of the same session and of no later attempt. */
  predicate CauseFits(cause: Event, e: Event) { cause.session == e.session && cause.attempt <= e.attempt }

  ghost predicate CausesAgree(events: set<Event>) {
    forall c, e | c in events && e in events && e.cause == Some(c.id) :: CauseFits(c, e)
  }

  /** Along a source neither clock nor attempt falls. */
  predicate Advances(a: Event, b: Event) { a.monotonic <= b.monotonic && a.attempt <= b.attempt }

  ghost predicate SourcesAdvance(events: set<Event>) {
    forall a, b | a in events && b in events && SameSource(a, b) && a.sequence < b.sequence :: Advances(a, b)
  }

  // Two events of one session: both of an update or neither, of the same
  // component and version, with the same digest, which no failure drops.
  predicate SameKind(a: Event, b: Event) { a.update.Some? <==> b.update.Some? }

  predicate SameComponent(a: Event, b: Event) {
    a.update.Some? && b.update.Some? ==> a.update.value.component == b.update.value.component
  }

  predicate SameTarget(a: Event, b: Event) {
    a.update.Some? && b.update.Some? ==> a.update.value.target == b.update.value.target
  }

  predicate Digested(e: Event) { e.update.Some? && e.update.value.digest.Some? }

  predicate SameDigest(a: Event, b: Event) { Digested(a) && Digested(b) ==> a.update.value.digest == b.update.value.digest }

  predicate KeepsDigest(a: Event, b: Event) { Digested(a) && b.code == FAILED ==> Digested(b) }

  predicate Agree(a: Event, b: Event) {
    SameKind(a, b) && SameComponent(a, b) && SameTarget(a, b) && SameDigest(a, b) && KeepsDigest(a, b)
  }

  ghost predicate SessionsAgree(events: set<Event>) {
    forall a, b | a in events && b in events && a.session == b.session :: Agree(a, b)
  }

  ghost function TerminalsIn(events: set<Event>, terminals: Terminals, session: string): set<Event> {
    set e | e in events && e.session == session && e.code in terminals
  }

  ghost predicate OneTerminal(events: set<Event>, terminals: Terminals, session: string) {
    exists t :: Sole(TerminalsIn(events, terminals, session), t)
  }

  ghost predicate RulesHold(events: set<Event>, terminals: Terminals) {
    && CausesAgree(events) && SourcesAdvance(events) && SessionsAgree(events)
    && forall e | e in events :: OneTerminal(events, terminals, e.session)
  }

  method CheckCauses(events: seq<Event>, m: Catalogue) returns (ok: bool)
    requires KnowsStream(m, events)
    ensures ok <==> CausesAgree(SetOf(events))
  {
    ok := true;
    var i := 0;
    while i < |events|
      invariant 0 <= i <= |events|
      invariant ok <==> forall k | 0 <= k < i && events[k].cause.Some? && events[k].cause.value in m ::
                          CauseFits(m[events[k].cause.value], events[k])
    {
      var e := events[i];
      if e.cause.Some? && e.cause.value in m && !CauseFits(m[e.cause.value], e) {
        ok := false;
      }
      i := i + 1;
    }
    if ok {
      forall c, e | c in SetOf(events) && e in SetOf(events) && e.cause == Some(c.id) ensures CauseFits(c, e) {
        assert m[e.cause.value] == c;
      }
    }
  }

  ghost predicate GroupAdvances(group: seq<Event>) {
    forall a, b | a in group && b in group && a.sequence < b.sequence :: Advances(a, b)
  }

  /** In a sorted group neighbours decide. */
  lemma {:induction false} NeighboursAdvance(group: seq<Event>)
    requires Ascending(group)
    ensures (forall i, j | 0 <= i && j == i + 1 < |group| :: Advances(group[i], group[j])) <==> GroupAdvances(group)
  {
    if forall i, j | 0 <= i && j == i + 1 < |group| :: Advances(group[i], group[j]) {
      forall a, b | a in group && b in group && a.sequence < b.sequence ensures Advances(a, b) {
        var i :| 0 <= i < |group| && group[i] == a;
        var j :| 0 <= j < |group| && group[j] == b;
        AdvancesAlong(group, i, j);
      }
    } else {
      var i, j :| 0 <= i && j == i + 1 < |group| && !Advances(group[i], group[j]);
      assert group[i] in group && group[j] in group;
    }
  }

  lemma {:induction false} AdvancesAlong(group: seq<Event>, i: nat, j: nat)
    requires i < j < |group|
    requires forall i, j | 0 <= i && j == i + 1 < |group| :: Advances(group[i], group[j])
    ensures Advances(group[i], group[j])
    decreases j
  {
    assert Advances(group[j - 1], group[j]);
    if i < j - 1 {
      AdvancesAlong(group, i, j - 1);
    }
  }

  /** One source in the order of its sequence numbers. */
  method CheckSource(group: seq<Event>) returns (ok: bool)
    requires forall i, j | 0 <= i < j < |group| :: group[i].sequence != group[j].sequence
    ensures ok <==> GroupAdvances(group)
  {
    var ordered := SortBySequence(group);
    var lastMonotonic: int, lastAttempt: nat := -1, 0;
    ok := true;
    var i := 0;
    while i < |ordered|
      invariant 0 <= i <= |ordered|
      invariant if i == 0 then (lastMonotonic, lastAttempt) == (-1, 0)
                else (lastMonotonic, lastAttempt) == (ordered[i - 1].monotonic, ordered[i - 1].attempt)
      invariant ok <==> forall k, l | 0 <= k && l == k + 1 < i :: Advances(ordered[k], ordered[l])
    {
      var e := ordered[i];
      if e.monotonic < lastMonotonic {
        ok := false;
      }
      if e.attempt < lastAttempt {
        ok := false;
      }
      lastMonotonic, lastAttempt := e.monotonic, e.attempt;
      i := i + 1;
    }
    NeighboursAdvance(ordered);
    assert GroupAdvances(ordered) <==> GroupAdvances(group);
  }

  method CheckSources(events: seq<Event>, m: Catalogue) returns (ok: bool)
    requires KnowsStream(m, events)
    ensures ok <==> SourcesAdvance(SetOf(events))
  {
    var groups, edges := CollectCauses(events, true, m);
    ok := true;
    var waiting := groups.Keys;
    while waiting != {}
      invariant waiting <= groups.Keys
      invariant ok <==> forall s | s in groups.Keys - waiting :: GroupAdvances(groups[s])
      decreases waiting
    {
      var source :| source in waiting;
      var one := CheckSource(groups[source]);
      ok := ok && one;
      waiting := waiting - {source};
    }
    GroupsCover(groups, events);
  }

  lemma GroupsCover(groups: map<Source, seq<Event>>, events: seq<Event>)
    requires Grouped(groups, events)
    ensures (forall s | s in groups :: GroupAdvances(groups[s])) <==> SourcesAdvance(SetOf(events))
  {
    if forall s | s in groups :: GroupAdvances(groups[s]) {
      forall a, b | a in events && b in events && SameSource(a, b) && a.sequence < b.sequence ensures Advances(a, b) {
        assert a in groups[SourceOf(a)] && b in groups[SourceOf(a)];
      }
    }
    if SourcesAdvance(SetOf(events)) {
      forall s, a, b | s in groups && a in groups[s] && b in groups[s] && a.sequence < b.sequence ensures Advances(a, b) {
        assert a in SetOf(events) && b in SetOf(events);
      }
    }
  }

  lemma AtMostOne<T>(s: set<T>)
    ensures |s| <= 1 <==> forall x, y | x in s && y in s :: x == y
  {
    if x, y :| x in s && y in s && x != y {
      assert |s - {x}| >= 1 by { assert y in s - {x}; }
    } else if s != {} {
      var x :| x in s;
      assert s == {x};
    }
  }

  ghost predicate Sole<T>(s: set<T>, x: T) { x in s && forall y | y in s :: y == x }

  lemma ExactlyOne<T>(s: set<T>)
    ensures |s| == 1 <==> exists x :: Sole(s, x)
  {
    AtMostOne(s);
    if |s| == 1 {
      var x :| x in s;
      assert Sole(s, x);
    }
    if x :| Sole(s, x) {
      assert s == {x};
    }
  }

  ghost predicate GroupAgrees(group: set<Event>) { forall a, b | a in group && b in group :: Agree(a, b) }

  /** Each part of it on its own. */
  lemma AgreeParts(group: set<Event>)
    ensures GroupAgrees(group) <==>
              && (forall a, b | a in group && b in group :: SameKind(a, b))
              && (forall a, b | a in group && b in group :: SameComponent(a, b))
              && (forall a, b | a in group && b in group :: SameTarget(a, b))
              && (forall a, b | a in group && b in group :: SameDigest(a, b))
              && (forall a, b | a in group && b in group :: KeepsDigest(a, b))
  {
    hide SameKind, SameComponent, SameTarget, SameDigest, KeepsDigest;
    if GroupAgrees(group) {
      forall a, b | a in group && b in group
        ensures SameKind(a, b) && SameComponent(a, b) && SameTarget(a, b) && SameDigest(a, b) && KeepsDigest(a, b)
      {
        assert Agree(a, b);
      }
    }
  }

  ghost predicate TerminalOf(group: set<Event>, terminals: Terminals) {
    exists t :: Sole(EndingsOf(group, terminals), t)
  }

  ghost function EndingsOf(group: set<Event>, terminals: Terminals): set<Event> { set e | e in group && e.code in terminals }

  lemma KindsSame(group: set<Event>, kinds: set<bool>)
    requires group != {} && kinds == set e | e in group :: e.update.Some?
    ensures |kinds| == 1 <==> forall a, b | a in group && b in group :: SameKind(a, b)
  {
    AtMostOne(kinds);
    assert forall e | e in group :: e.update.Some? in kinds;
    var some :| some in group;
    assert some.update.Some? in kinds;
  }

  lemma ComponentsSame(group: set<Event>, some: Event, components: set<string>)
    requires some in group && some.update.Some?
    requires components == set e | e in group && e.update.Some? :: e.update.value.component
    ensures |components| == 1 <==> forall a, b | a in group && b in group :: SameComponent(a, b)
  {
    AtMostOne(components);
    assert forall e | e in group && e.update.Some? :: e.update.value.component in components;
    assert some.update.value.component in components;
  }

  lemma TargetsSame(group: set<Event>, some: Event, targets: set<string>)
    requires some in group && some.update.Some?
    requires targets == set e | e in group && e.update.Some? :: e.update.value.target
    ensures |targets| == 1 <==> forall a, b | a in group && b in group :: SameTarget(a, b)
  {
    AtMostOne(targets);
    assert forall e | e in group && e.update.Some? :: e.update.value.target in targets;
    assert some.update.value.target in targets;
  }

  /** Exactly one kind and exactly one terminal event. */
  method CheckEnding(group: set<Event>, terminals: Terminals) returns (ok: bool)
    requires group != {}
    ensures ok <==> (forall a, b | a in group && b in group :: SameKind(a, b)) && TerminalOf(group, terminals)
  {
    hide SameKind, Sole;
    var kinds := set e | e in group :: e.update.Some?;
    var terminal := set e | e in group && e.code in terminals;
    ok := |kinds| == 1 && |terminal| == 1;
    KindsSame(group, kinds);
    assert terminal == EndingsOf(group, terminals);
    ExactlyOne(terminal);
  }

  /** One component and one version. */
  method CheckTargets(group: set<Event>, ghost some: Event) returns (ok: bool)
    requires some in group && some.update.Some?
    ensures ok <==> (forall a, b | a in group && b in group :: SameComponent(a, b)) && (forall a, b | a in group && b in group :: SameTarget(a, b))
  {
    hide SameComponent, SameTarget;
    var components := set e | e in group && e.update.Some? :: e.update.value.component;
    var targets := set e | e in group && e.update.Some? :: e.update.value.target;
    ok := |components| == 1 && |targets| == 1;
    ComponentsSame(group, some, components);
    TargetsSame(group, some, targets);
  }

  /** At most one digest, dropped by no failure. */
  method CheckDigests(group: set<Event>) returns (ok: bool)
    ensures ok <==> (forall a, b | a in group && b in group :: SameDigest(a, b)) && (forall a, b | a in group && b in group :: KeepsDigest(a, b))
  {
    var digests := set e | e in group && Digested(e) :: e.update.value.digest.value;
    var dropped := exists e | e in group :: e.code == FAILED && !Digested(e);
    ok := |digests| <= 1 && (digests == {} || !dropped);
    AtMostOne(digests);
    assert forall e | e in group && Digested(e) :: e.update.value.digest.value in digests;
  }

  /** The events of one session. */
  method CheckSession(group: set<Event>, terminals: Terminals) returns (ok: bool)
    requires group != {}
    ensures ok <==> GroupAgrees(group) && TerminalOf(group, terminals)
  {
    hide SameTarget, SameComponent, SameDigest, KeepsDigest, Agree, TerminalOf;
    AgreeParts(group);
    ok := CheckEnding(group, terminals);
    var some :| some in group;
    if some.update.Some? {
      var one := CheckTargets(group, some);
      var other := CheckDigests(group);
      ok := ok && one && other;
    } else if ok {
      PlainAgrees(group, some);
    }
  }

  lemma PlainAgrees(group: set<Event>, some: Event)
    requires some in group && some.update.None? && forall a, b | a in group && b in group :: SameKind(a, b)
    ensures GroupAgrees(group)
  {
    assert forall a | a in group :: SameKind(a, some);
  }

  method CheckSessions(events: seq<Event>, terminals: Terminals) returns (ok: bool)
    ensures ok <==> SessionsAgree(SetOf(events)) && forall e | e in SetOf(events) :: OneTerminal(SetOf(events), terminals, e.session)
  {
    var sessions := set e | e in events :: e.session;
    ok := true;
    var waiting := sessions;
    while waiting != {}
      invariant waiting <= sessions
      invariant ok <==> forall s | s in sessions - waiting ::
                          GroupAgrees(SessionOf(events, s)) && TerminalOf(SessionOf(events, s), terminals)
      decreases waiting
    {
      var session :| session in waiting;
      var group := set e | e in events && e.session == session;
      ghost var first :| first in events && first.session == session;
      assert first in group;
      var one := CheckSession(group, terminals);
      assert group == SessionOf(events, session);
      ok := ok && one;
      waiting := waiting - {session};
    }
    SessionsCover(events, terminals, sessions);
  }

  ghost function SessionOf(events: seq<Event>, session: string): set<Event> { set e | e in events && e.session == session }

  lemma SessionsCover(events: seq<Event>, terminals: Terminals, sessions: set<string>)
    requires sessions == set e | e in events :: e.session
    ensures (forall s | s in sessions :: GroupAgrees(SessionOf(events, s)) && TerminalOf(SessionOf(events, s), terminals)) <==>
              SessionsAgree(SetOf(events)) && forall e | e in SetOf(events) :: OneTerminal(SetOf(events), terminals, e.session)
  {
    hide Agree;
    forall s ensures TerminalOf(SessionOf(events, s), terminals) <==> OneTerminal(SetOf(events), terminals, s) {
      OneTerminalOf(events, terminals, s);
    }
    hide TerminalOf, OneTerminal;
    if forall s | s in sessions :: GroupAgrees(SessionOf(events, s)) {
      forall a, b | a in SetOf(events) && b in SetOf(events) && a.session == b.session ensures Agree(a, b) {
        assert a in SessionOf(events, a.session) && b in SessionOf(events, a.session);
      }
    }
    if SessionsAgree(SetOf(events)) {
      forall s, a, b | s in sessions && a in SessionOf(events, s) && b in SessionOf(events, s) ensures Agree(a, b) {
        assert a in SetOf(events) && b in SetOf(events);
      }
    }
    assert forall e | e in events :: e.session in sessions;
  }

  lemma OneTerminalOf(events: seq<Event>, terminals: Terminals, session: string)
    ensures TerminalOf(SessionOf(events, session), terminals) <==> OneTerminal(SetOf(events), terminals, session)
  {
    assert EndingsOf(SessionOf(events, session), terminals) == TerminalsIn(SetOf(events), terminals, session);
  }

  // ---------- validate_stream and order_events ----------

  /** The terminal codes of the catalogue. */
  type Terminals = set<string>

  ghost predicate StreamValid(events: set<Event>, strict: bool, terminals: Terminals) {
    && Consistent(events)
    && (strict ==> Closed(ById(events)))
    && RulesHold(events, terminals)
    && !Cyclic(ById(events))
  }

  /** In a valid stream an event never precedes one of an earlier attempt. */
  lemma AttemptsNeverFall(events: set<Event>, terminals: Terminals, a: EventId, b: EventId)
    requires StreamValid(events, true, terminals) && a in ById(events) && b in ById(events)
    requires Precedes(ById(events), a, b)
    ensures ById(events)[a].attempt <= ById(events)[b].attempt
  {
    hide Cyclic, SessionsAgree, OneTerminal;
    if a != b {
      var p :| Leads(ById(events), p, a, b);
      WalkRaisesAttempt(events, p);
    }
  }

  lemma {:induction false} EdgeRaisesAttempt(events: set<Event>, a: EventId, b: EventId)
    requires Consistent(events) && Closed(ById(events)) && CausesAgree(events) && SourcesAdvance(events)
    requires Edge(ById(events), a, b)
    ensures a in ById(events) && b in ById(events) && ById(events)[a].attempt <= ById(events)[b].attempt
  {
    hide Consistent, ById;
    var m := ById(events);
    if m[b].cause == Some(a) {
      assert m[b].cause.value in m;
      assert CauseFits(m[a], m[b]);
    } else {
      assert Advances(m[a], m[b]);
    }
  }

  lemma {:induction false} WalkRaisesAttempt(events: set<Event>, p: seq<EventId>)
    requires Consistent(events) && Closed(ById(events)) && CausesAgree(events) && SourcesAdvance(events)
    requires |p| >= 2 && IsWalk(ById(events), p)
    ensures p[0] in ById(events) && p[|p| - 1] in ById(events)
    ensures ById(events)[p[0]].attempt <= ById(events)[p[|p| - 1]].attempt
    decreases |p|
  {
    hide Consistent, Closed, CausesAgree, SourcesAdvance, Edge;
    EdgeRaisesAttempt(events, p[0], p[1]);
    if |p| > 2 {
      assert IsWalk(ById(events), p[1..]);
      WalkRaisesAttempt(events, p[1..]);
    }
  }

  function Catalog(events: seq<Event>): (m: Catalogue)
    requires DistinctIds(events) && Consistent(SetOf(events))
    ensures KnowsStream(m, events)
    ensures m == ById(SetOf(events))
    ensures |m| == |events|
  {
    var m := map e | e in events :: e.id := e;
    assert forall e | e in events :: e in SetOf(events);
    CatalogSize(events, m);
    m
  }

  lemma CatalogSize(events: seq<Event>, m: Catalogue)
    requires DistinctIds(events)
    requires forall e | e in events :: e.id in m && m[e.id] == e
    requires forall a | a in m :: m[a] in events && m[a].id == a
    ensures |m| == |events|
  {
    var ids := seq(|events|, i requires 0 <= i < |events| => events[i].id);
    DistinctSize(ids);
    assert Members(ids) == m.Keys by {
      forall a | a in m ensures a in ids {
        var i :| 0 <= i < |events| && events[i] == m[a];
        assert ids[i] == a;
      }
    }
  }

  method PushAll(stack: seq<EventId>, added: set<EventId>) returns (r: seq<EventId>)
    requires Distinct(stack) && Members(stack) !! added
    ensures Distinct(r) && Members(r) == Members(stack) + added
  {
    r := stack;
    var rest := added;
    while rest != {}
      invariant rest <= added && Distinct(r)
      invariant Members(r) == Members(stack) + (added - rest)
      decreases rest
    {
      var x :| x in rest;
      r := r + [x];
      rest := rest - {x};
    }
  }

  /** One turn of the validator's stack loop. */
  method Visit(nodes: set<EventId>, edges: EdgeMap, ghost done: seq<EventId>, degrees: Degrees, pending: seq<EventId>)
    returns (indegree: Degrees, rest: seq<EventId>)
    requires Kahn(nodes, edges, done, degrees, Members(pending)) && Distinct(pending) && pending != []
    ensures Kahn(nodes, edges, done + [pending[|pending| - 1]], indegree, Members(rest)) && Distinct(rest)
  {
    var current := pending[|pending| - 1];
    PopLast(pending);
    KahnStep(nodes, edges, done, degrees, Members(pending), current);
    var released;
    indegree, released := ReleaseChildren(Children(edges, current), degrees);
    rest := PushAll(pending[..|pending| - 1], released);
  }

  /** Visits from the parentless events with a stack and counts the visits. */
  method CountVisits(nodes: set<EventId>, edges: EdgeMap, degrees: Degrees) returns (visited: nat, ghost done: seq<EventId>, ghost indegree: Degrees)
    requires Within(nodes, edges) && Counts(nodes, edges, [], degrees)
    ensures Kahn(nodes, edges, done, indegree, {}) && visited == |done|
  {
    hide Kahn, Distinct, Within, Members, ParentsFirst, Unplaced;
    NoMembers();
    var initial := set b | b in nodes && degrees[b] == 0;
    KahnStart(nodes, edges, degrees, initial);
    var waiting := degrees;
    var pending := PushAll([], initial);
    done, visited := [], 0;
    assert Members(pending) == initial;
    while pending != []
      invariant Kahn(nodes, edges, done, waiting, Members(pending))
      invariant Distinct(pending) && visited == |done|
      decreases |nodes| - visited
    {
      var current := pending[|pending| - 1];
      waiting, pending := Visit(nodes, edges, done, waiting, pending);
      done := done + [current];
      visited := visited + 1;
      KahnPlacesNodes(nodes, edges, done, waiting, Members(pending));
    }
    indegree := waiting;
  }

  /** Graph part of the validator. */
  method HasCycle(events: seq<Event>, m: Catalogue) returns (cyclic: bool)
    requires KnowsStream(m, events)
    ensures cyclic <==> Cyclic(m)
  {
    var edges := BuildEdges(events, true, m);
    KnownGraph(m, edges);
    var indegree := CountParents(m.Keys, edges);
    var visited;
    ghost var done, rest;
    visited, done, rest := CountVisits(m.Keys, edges, indegree);
    CountingDecides(m, edges, done, rest);
    cyclic := visited != |m|;
  }

  lemma KahnStart(nodes: set<EventId>, edges: EdgeMap, indegree: Degrees, ready: set<EventId>)
    requires Within(nodes, edges) && Counts(nodes, edges, [], indegree)
    requires ready == set b | b in nodes && indegree[b] == 0
    ensures Kahn(nodes, edges, [], indegree, ready)
  {
  }

  lemma KnownGraph(m: Catalogue, edges: EdgeMap)
    requires EdgesMatch(m, edges, true)
    ensures GraphOf(m, edges) && Within(m.Keys, edges)
  {
  }

  lemma PopLast(stack: seq<EventId>)
    requires Distinct(stack) && stack != []
    ensures var front := stack[..|stack| - 1];
            Distinct(front) && Members(front) == Members(stack) - {stack[|stack| - 1]}
  {
  }

  lemma NoMembers()
    ensures Members([]) == {} && Distinct([])
  {
  }

  lemma KahnPlacesNodes(nodes: set<EventId>, edges: EdgeMap, done: seq<EventId>, indegree: Degrees, ready: set<EventId>)
    requires Kahn(nodes, edges, done, indegree, ready)
    ensures |done| <= |nodes|
  {
    KahnBound(nodes, edges, done, indegree);
  }

  lemma KahnBound(nodes: set<EventId>, edges: EdgeMap, done: seq<EventId>, indegree: Degrees)
    requires Distinct(done) && Members(done) <= nodes
    ensures |done| <= |nodes|
  {
    DistinctSize(done);
    SubsetSize(Members(done), nodes);
  }

  /** Raises unless the stream is consistent, its causes are known (when
      `strict`), causes, sources and sessions agree and no causal cycle exists. */
  method ValidateStream(events: seq<Event>, strict: bool, terminals: Terminals)
    returns (r: Result<seq<Event>, StreamError>)
    ensures r.Ok? <==> StreamValid(SetOf(events), strict, terminals)
    ensures r.Ok? ==> DistinctIds(r.value) && SetOf(r.value) == SetOf(events)
  {
    hide CausesAgree, SourcesAdvance, SessionsAgree, OneTerminal, Consistent, Cyclic;
    var unique := Deduplicate(events);
    if unique.Err? {
      return Err(unique.error);
    }
    var m := Catalog(unique.value);
    var missing := exists e | e in unique.value :: e.cause.Some? && e.cause.value !in m;
    assert missing <==> !Closed(m) by {
      forall b | b in m && m[b].cause.Some? && m[b].cause.value !in m ensures missing {
        assert m[b] in unique.value;
      }
    }
    var cyclic := HasCycle(unique.value, m);
    var agreeing := CheckCauses(unique.value, m);
    var advancing := CheckSources(unique.value, m);
    var sound := CheckSessions(unique.value, terminals);
    if (strict && missing) || !agreeing || !advancing || !sound || cyclic {
      return Err(InvalidStream);
    }
    return Ok(unique.value);
  }

  method PopLeast(ready: set<EventId>, m: Catalogue) returns (least: EventId)
    requires ready != {} && ready <= m.Keys && WellKeyed(m)
    ensures least in ready
    ensures forall b | b in ready :: b == least || KeyLess(TieBreaker(m[least]), TieBreaker(m[b]))
  {
    least :| least in ready;
    var rest := ready - {least};
    while rest != {}
      invariant least in ready && rest <= ready
      invariant forall b | b in ready - rest :: b == least || KeyLess(TieBreaker(m[least]), TieBreaker(m[b]))
      decreases rest
    {
      var x :| x in rest;
      KeyTotal(TieBreaker(m[least]), TieBreaker(m[x]));
      if KeyLess(TieBreaker(m[x]), TieBreaker(m[least])) {
        forall b | b in ready - rest && b != least ensures KeyLess(TieBreaker(m[x]), TieBreaker(m[b])) {
          KeyTransitive(TieBreaker(m[x]), TieBreaker(m[least]), TieBreaker(m[b]));
        }
        least := x;
      }
      rest := rest - {x};
    }
  }

  lemma AvailableIsReady(m: Catalogue, edges: EdgeMap, done: seq<EventId>, indegree: Degrees, ready: set<EventId>, b: EventId)
    requires GraphOf(m, edges) && Kahn(m.Keys, edges, done, indegree, ready)
    requires Available(m, done, b)
    ensures b in ready
  {
    assert Unplaced(m.Keys, edges, done, b) == {} by {
      forall a | a in Parents(m.Keys, edges, b) ensures a in done {
        assert KnownEdge(m, a, b);
      }
    }
  }

  lemma GreedyStep(m: Catalogue, done: seq<EventId>, ready: set<EventId>, x: EventId)
    requires x in ready && ready <= m.Keys
    requires forall b | Available(m, done, b) :: b in ready
    requires forall b | b in ready :: b == x || KeyLess(TieBreaker(m[x]), TieBreaker(m[b]))
    requires Greedy(m, done)
    ensures Greedy(m, done + [x])
  {
    var next := done + [x];
    forall k, b | 0 <= k < |next| && Available(m, next[..k], b)
      ensures next[k] in m && (b == next[k] || KeyLess(TieBreaker(m[next[k]]), TieBreaker(m[b])))
    {
      if k < |done| {
        assert next[..k] == done[..k] && next[k] == done[k];
      } else {
        assert next[..k] == done;
      }
    }
  }

  ghost function Ids(events: seq<Event>): seq<EventId> {
    seq(|events|, i requires 0 <= i < |events| => events[i].id)
  }

  /** What the documentation promises of `order_events`. */
  ghost predicate DeterministicOrder(events: set<Event>, terminals: Terminals, r: Result<seq<Event>, StreamError>) {
    && (r.Ok? <==> StreamValid(events, true, terminals))
    && (r.Ok? ==> SetOf(r.value) == events && LeastLinearisation(ById(events), Ids(r.value)) && Greedy(ById(events), Ids(r.value)))
  }

  /** Kahn's algorithm with a heap keyed by the tie-break. */
  method OrderEvents(events: seq<Event>, terminals: Terminals) returns (r: Result<seq<Event>, StreamError>)
    ensures DeterministicOrder(SetOf(events), terminals, r)
  {
    hide RulesHold, Consistent, Cyclic;
    var unique := ValidateStream(events, true, terminals);
    if unique.Err? {
      return Err(unique.error);
    }
    var m := Catalog(unique.value);
    var ids := OrderIds(unique.value, m);
    assert Members(ids) == m.Keys;
    var ordered := seq(|ids|, i requires 0 <= i < |ids| => assert ids[i] in Members(ids); m[ids[i]]);
    IdsOfOrdered(m, ids, ordered, unique.value);
    return Ok(ordered);
  }

  lemma IdsOfOrdered(m: Catalogue, ids: seq<EventId>, ordered: seq<Event>, unique: seq<Event>)
    requires KnowsStream(m, unique) && Members(ids) == m.Keys
    requires |ordered| == |ids| && forall i | 0 <= i < |ids| :: ids[i] in m && ordered[i] == m[ids[i]]
    ensures Ids(ordered) == ids && SetOf(ordered) == SetOf(unique)
  {
    forall e | e in unique ensures e in ordered {
      assert e.id in Members(ids);
      var i :| 0 <= i < |ids| && ids[i] == e.id;
      assert ordered[i] == e;
    }
    forall e | e in ordered ensures e in unique {}
  }

  method OrderIds(events: seq<Event>, m: Catalogue) returns (ordered: seq<EventId>)
    requires KnowsStream(m, events) && Closed(m) && !Cyclic(m)
    ensures LeastLinearisation(m, ordered) && Greedy(m, ordered)
  {
    var edges := BuildEdges(events, false, m);
    ClosedGraph(m, edges);
    var indegree := CountParents(m.Keys, edges);
    var ready := set b | b in m && indegree[b] == 0;
    ordered := [];
    KahnStart(m.Keys, edges, indegree, ready);
    while ready != {}
      invariant Kahn(m.Keys, edges, ordered, indegree, ready)
      invariant Greedy(m, ordered)
      decreases |m| - |ordered|
    {
      var current := PopLeast(ready, m);
      forall b | Available(m, ordered, b) ensures b in ready {
        AvailableIsReady(m, edges, ordered, indegree, ready, b);
      }
      GreedyStep(m, ordered, ready, current);
      KahnStep(m.Keys, edges, ordered, indegree, ready, current);
      KahnBound(m.Keys, edges, ordered + [current], CountedChildren(Children(edges, current), indegree, -1));
      var released;
      indegree, released := ReleaseChildren(Children(edges, current), indegree);
      ready := ready - {current} + released;
      ordered := ordered + [current];
    }
    CountingDecides(m, edges, ordered, indegree);
    GreedyIsLeast(m, ordered);
  }

  lemma ClosedGraph(m: Catalogue, edges: EdgeMap)
    requires EdgesMatch(m, edges, false) && Closed(m)
    ensures GraphOf(m, edges) && Within(m.Keys, edges)
  {
    forall a, b | Edge(m, a, b) ensures a in m {
      if m[b].cause == Some(a) {
        assert m[b].cause.value in m;
      }
    }
  }

  /** Reordering or repeating events changes neither success nor the order. */
  lemma OrderIgnoresArrival(first: seq<Event>, second: seq<Event>, terminals: Terminals,
                            r: Result<seq<Event>, StreamError>, r': Result<seq<Event>, StreamError>)
    requires SetOf(first) == SetOf(second)
    requires DeterministicOrder(SetOf(first), terminals, r) && DeterministicOrder(SetOf(second), terminals, r')
    ensures r.Ok? <==> r'.Ok?
    ensures r.Ok? ==> r.value == r'.value
  {
    if r.Ok? {
      var m := ById(SetOf(first));
      LeastIsUnique(m, Ids(r.value), Ids(r'.value));
      forall i | 0 <= i < |r.value| ensures i < |r'.value| && r.value[i] == r'.value[i] {
        assert |Ids(r.value)| == |r.value| && |Ids(r'.value)| == |r'.value|;
        assert Ids(r.value)[i] == r.value[i].id && Ids(r'.value)[i] == r'.value[i].id;
        assert r.value[i] in SetOf(r.value) && r'.value[i] in SetOf(r'.value);
      }
    }
  }

  // ---------- _causally_precedes and _required_causal_chain ----------

  /** Nothing reachable from a set that is closed under children, and whose
      children avoid `right`, is `right`. */
  lemma {:induction false} ClosedSetAvoids(m: Catalogue, edges: EdgeMap, seen: set<EventId>, right: EventId, p: seq<EventId>)
    requires EdgesMatch(m, edges, false)
    requires forall a, b | a in seen && b in Children(edges, a) :: b in seen && b != right
    requires |p| >= 2 && IsWalk(m, p) && p[0] in seen
    ensures p[|p| - 1] in seen && p[|p| - 1] != right
    decreases |p|
  {
    assert Edge(m, p[0], p[1]);
    assert p[1] in Children(edges, p[0]);
    if |p| > 2 {
      assert IsWalk(m, p[1..]);
      ClosedSetAvoids(m, edges, seen, right, p[1..]);
    }
  }

  lemma PrecedesStep(m: Catalogue, a: EventId, b: EventId, c: EventId)
    requires Precedes(m, a, b) && Edge(m, b, c)
    ensures exists p :: Leads(m, p, a, c)
  {
    if a == b {
      assert Leads(m, [a, c], a, c);
    } else {
      var p :| Leads(m, p, a, b);
      assert Leads(m, p + [c], a, c);
    }
  }

  lemma PrecedesTransitive(m: Catalogue, a: EventId, b: EventId, c: EventId)
    requires Precedes(m, a, b) && Precedes(m, b, c)
    ensures Precedes(m, a, c)
  {
    if a != b && b != c {
      var p :| Leads(m, p, a, b);
      var q :| Leads(m, q, b, c);
      var w := p + q[1..];
      forall i, j | 0 <= i && j == i + 1 < |w| ensures Edge(m, w[i], w[j]) {
        if j < |p| {
          assert Edge(m, p[i], p[j]);
        } else {
          var k := i - (|p| - 1);
          assert w[i] == q[k] && w[j] == q[k + 1];
          assert Edge(m, q[k], q[k + 1]);
        }
      }
      assert Leads(m, w, a, c);
    }
  }

  ghost predicate Explored(edges: EdgeMap, seen: set<EventId>, pending: set<EventId>, right: EventId) {
    forall a, b | a in seen - pending && b in Children(edges, a) :: b in seen && b != right
  }

  lemma ExploredStep(edges: EdgeMap, seen: set<EventId>, rest: set<EventId>, right: EventId, current: EventId)
    requires Explored(edges, seen, rest + {current}, right)
    requires right !in Children(edges, current)
    ensures var next := seen + Children(edges, current);
            Explored(edges, next, rest + (next - seen), right)
  {
  }

  /** The stack search answers exactly the reflexive-transitive closure. */
  method CausallyPrecedes(left: EventId, right: EventId, events: seq<Event>, m: Catalogue) returns (r: bool)
    requires KnowsStream(m, events)
    ensures r <==> Precedes(m, left, right)
  {
    if left == right {
      return true;
    }
    var edges := BuildEdges(events, false, m);
    var pending, seen := [left], {left};
    while pending != []
      invariant left in seen && seen <= m.Keys + {left} && Members(pending) <= seen
      invariant forall a | a in seen :: Precedes(m, left, a)
      invariant Explored(edges, seen, Members(pending), right)
      decreases m.Keys + {left} - seen, |pending|
    {
      var current := pending[|pending| - 1];
      var rest := pending[..|pending| - 1];
      var found;
      ghost var before := seen;
      assert Members(pending) == Members(rest) + {current};
      found, pending, seen := ScanChildren(current, left, right, edges, rest, seen, m);
      if found {
        return true;
      }
      ExploredStep(edges, before, Members(rest), right, current);
    }
    assert Members(pending) == {};
    forall p | |p| >= 2 && IsWalk(m, p) && p[0] == left ensures p[|p| - 1] != right {
      ClosedSetAvoids(m, edges, seen, right, p);
    }
    return false;
  }

  method ScanChildren(current: EventId, ghost left: EventId, right: EventId, edges: EdgeMap,
                      pending0: seq<EventId>, seen0: set<EventId>, ghost m: Catalogue)
    returns (found: bool, pending: seq<EventId>, seen: set<EventId>)
    requires EdgesMatch(m, edges, false) && current in seen0 && Precedes(m, left, current)
    requires forall a | a in seen0 :: Precedes(m, left, a)
    ensures found ==> exists p :: Leads(m, p, left, right)
    ensures !found ==> right !in Children(edges, current)
    ensures seen == seen0 + if found then seen - seen0 else Children(edges, current)
    ensures Members(pending) == Members(pending0) + (seen - seen0)
    ensures seen == seen0 ==> pending == pending0
    ensures forall a | a in seen :: Precedes(m, left, a)
    ensures seen - seen0 <= m.Keys
  {
    pending, seen := pending0, seen0;
    var rest := Children(edges, current);
    while rest != {}
      invariant rest <= Children(edges, current) && right !in Children(edges, current) - rest
      invariant seen == seen0 + (Children(edges, current) - rest)
      invariant Members(pending) == Members(pending0) + (seen - seen0)
      invariant seen == seen0 ==> pending == pending0
      invariant forall a | a in seen :: Precedes(m, left, a)
      invariant seen - seen0 <= m.Keys
      decreases rest
    {
      var child :| child in rest;
      assert Edge(m, current, child);
      PrecedesStep(m, left, current, child);
      if child == right {
        return true, pending, seen;
      }
      if child !in seen {
        assert Members(pending + [child]) == Members(pending) + {child};
        seen := seen + {child};
        pending := pending + [child];
      }
      rest := rest - {child};
    }
    found := false;
  }

  /** `at` places each required code at a strictly later event. */
  ghost predicate Embeds(codes: seq<string>, ordered: seq<Event>, at: seq<nat>) {
    && |at| == |codes|
    && (forall i | 0 <= i < |at| :: at[i] < |ordered| && ordered[at[i]].code == codes[i])
    && (forall i, j | 0 <= i < j < |at| :: at[i] < at[j])
  }

  /** No embedding of leading codes into these events is longer than `cursor`. */
  ghost predicate AtMost(codes: seq<string>, ordered: seq<Event>, cursor: nat) {
    forall b: seq<nat> | |b| <= |codes| && Embeds(codes[..|b|], ordered, b) :: |b| <= cursor
  }

  lemma NothingEmbeds(codes: seq<string>)
    ensures AtMost(codes, [], 0)
  {
    forall b: seq<nat> | 0 < |b| <= |codes| ensures !Embeds(codes[..|b|], [], b) {
      assert b[0] >= 0;
    }
  }

  lemma OneMoreEvent(codes: seq<string>, ordered: seq<Event>, i: nat, cursor: nat)
    requires i < |ordered| && cursor <= |codes|
    requires AtMost(codes, ordered[..i], cursor)
    ensures AtMost(codes, ordered[..i + 1],
                   if cursor < |codes| && ordered[i].code == codes[cursor] then cursor + 1 else cursor)
  {
    forall b: seq<nat> | |b| <= |codes| && Embeds(codes[..|b|], ordered[..i + 1], b)
      ensures |b| <= cursor || (|b| == cursor + 1 && ordered[i].code == codes[cursor])
    {
      if |b| > 0 {
        var front := b[..|b| - 1];
        forall j | 0 <= j < |front| ensures front[j] < i && ordered[..i][front[j]].code == codes[..|front|][j] {
          assert b[j] < b[|b| - 1];
        }
        assert Embeds(codes[..|front|], ordered[..i], front);
        if b[|b| - 1] < i {
          assert forall j | 0 <= j < |b| :: b[j] <= b[|b| - 1];
          assert Embeds(codes[..|b|], ordered[..i], b);
        }
      }
    }
  }

  ghost predicate Selects(codes: seq<string>, ordered: seq<Event>, selected: seq<Event>, at: seq<nat>) {
    && |selected| == |at| <= |codes|
    && Embeds(codes[..|at|], ordered, at)
    && forall i | 0 <= i < |at| :: selected[i] == ordered[at[i]]
  }

  lemma SelectNext(codes: seq<string>, ordered: seq<Event>, i: nat, selected: seq<Event>, at: seq<nat>)
    requires i < |ordered| && Selects(codes, ordered[..i], selected, at)
    ensures Selects(codes, ordered[..i + 1], selected, at)
    ensures |at| < |codes| && ordered[i].code == codes[|at|] ==>
              Selects(codes, ordered[..i + 1], selected + [ordered[i]], at + [i])
  {
    if |at| < |codes| && ordered[i].code == codes[|at|] {
      assert codes[..|at| + 1] == codes[..|at|] + [codes[|at|]];
    }
  }

  /** Picks the required codes greedily. */
  method SelectChain(codes: seq<string>, ordered: seq<Event>) returns (selected: seq<Event>)
    ensures exists at :: Selects(codes, ordered, selected, at)
    ensures AtMost(codes, ordered, |selected|)
  {
    selected := [];
    var cursor := 0;
    ghost var at: seq<nat> := [];
    NothingEmbeds(codes);
    for i := 0 to |ordered|
      invariant cursor == |selected|
      invariant Selects(codes, ordered[..i], selected, at)
      invariant AtMost(codes, ordered[..i], cursor)
    {
      OneMoreEvent(codes, ordered, i, cursor);
      SelectNext(codes, ordered, i, selected, at);
      if cursor < |codes| && ordered[i].code == codes[cursor] {
        at := at + [i];
        selected := selected + [ordered[i]];
        cursor := cursor + 1;
      }
    }
    assert ordered[..|ordered|] == ordered;
  }

  /** Passes exactly when every required code is supplied in order and the
      selected neighbours precede each other causally. */
  method RequiredCausalChain(codes: seq<string>, ordered: seq<Event>, m: Catalogue)
    returns (passed: bool, missing: seq<string>, selected: seq<Event>)
    requires KnowsStream(m, ordered)
    ensures exists at :: Selects(codes, ordered, selected, at)
    ensures |selected| <= |codes| && missing == codes[|selected|..]
    ensures missing == [] <==> exists at :: Embeds(codes, ordered, at)
    ensures passed <==> missing == []
                        && forall i, j | 0 <= i && j == i + 1 < |selected| ::
                             Precedes(m, selected[i].id, selected[j].id)
  {
    selected := SelectChain(codes, ordered);
    SelectedAll(codes, ordered, selected);
    missing := codes[|selected|..];
    passed := missing == [];
    if passed {
      passed := NeighboursPrecede(selected, ordered, m);
    }
  }

  lemma SelectedAll(codes: seq<string>, ordered: seq<Event>, selected: seq<Event>)
    requires exists at :: Selects(codes, ordered, selected, at)
    requires AtMost(codes, ordered, |selected|)
    ensures |selected| <= |codes|
    ensures |selected| == |codes| <==> exists at :: Embeds(codes, ordered, at)
  {
    assert codes[..|codes|] == codes;
    if at :| Embeds(codes, ordered, at) {
      assert Embeds(codes[..|at|], ordered, at);
    }
  }

  method NeighboursPrecede(selected: seq<Event>, ordered: seq<Event>, m: Catalogue) returns (r: bool)
    requires KnowsStream(m, ordered)
    ensures r <==> forall i, j | 0 <= i && j == i + 1 < |selected| :: Precedes(m, selected[i].id, selected[j].id)
  {
    var k := 0;
    while k + 1 < |selected|
      invariant k <= |selected|
      invariant forall i, j | 0 <= i < k && j == i + 1 < |selected| :: Precedes(m, selected[i].id, selected[j].id)
    {
      var step := CausallyPrecedes(selected[k].id, selected[k + 1].id, ordered, m);
      if !step {
        assert !Precedes(m, selected[k].id, selected[k + 1].id);
        return false;
      }
      k := k + 1;
    }
    return true;
  }

  /** A passing chain means that its first event causally precedes its last. */
  lemma {:induction false} ChainIsCausal(m: Catalogue, selected: seq<Event>)
    requires selected != []
    requires forall i, j | 0 <= i && j == i + 1 < |selected| :: Precedes(m, selected[i].id, selected[j].id)
    ensures Precedes(m, selected[0].id, selected[|selected| - 1].id)
  {
    if |selected| > 1 {
      var front := selected[..|selected| - 1];
      ChainIsCausal(m, front);
      PrecedesTransitive(m, selected[0].id, front[|front| - 1].id, selected[|selected| - 1].id);
    }
  }
}
