/** Eager loading of the edge between bar tabs and their events, in both directions
    (internal/ent/bartab_query.go, internal/ent/bartabevent_query.go). */
module EagerLoad {
  import opened Prelude

  class BarTab {
    const id: UUID
    var events: seq<BarTabEvent>

    constructor (id: UUID)
      ensures this.id == id && events == []
    {
      this.id, events := id, [];
    }
  }

  class BarTabEvent {
    const id: UUID
    const barTabID: UUID
    var barTab: BarTab?

    constructor (id: UUID, barTabID: UUID)
      ensures this.id == id && this.barTabID == barTabID && barTab == null
    {
      this.id, this.barTabID, barTab := id, barTabID, null;
    }
  }

  datatype EventRow = EventRow(id: UUID, barTabID: UUID)
  datatype EventField = IDField | BarTabIDField | OtherField(name: string)

  /** A query on events: the rows it selects, in its order; the fields it was narrowed to, if any; its
      limit; and whether the database fails it. */
  datatype EventQuery = EventQuery(rows: seq<EventRow>, fields: seq<EventField>, limit: Option<nat>, fails: bool)

  /** A query on tabs: only ids matter here. */
  datatype TabQuery = TabQuery(rows: seq<UUID>, limit: Option<nat>, fails: bool)

  datatype LoadError = QueryFailed | UnexpectedKey(key: UUID)

  // ---------------------------------------------------------------- what the database answers

  function Limited<T>(limit: Option<nat>, s: seq<T>): seq<T> {
    if limit.Some? && limit.value < |s| then s[..limit.value] else s
  }

  function RowAmong(keys: seq<UUID>): EventRow -> bool { (r: EventRow) => r.barTabID in keys }

  function RowOf(id: UUID): EventRow -> bool { (r: EventRow) => r.barTabID == id }

  function IDAmong(keys: seq<UUID>): UUID -> bool { (x: UUID) => x in keys }

  function EventOf(id: UUID): BarTabEvent -> bool { (e: BarTabEvent) => e.barTabID == id }

  /** The rows of an event query, narrowed by an IN filter on the foreign key if one was added. */
  function EventRows(q: EventQuery, keys: Option<seq<UUID>>): seq<EventRow> {
    Limited(q.limit, if keys.Some? then Filter(RowAmong(keys.value), q.rows) else q.rows)
  }

  function TabRows(q: TabQuery, keys: Option<seq<UUID>>): seq<UUID> {
    Limited(q.limit, if keys.Some? then Filter(IDAmong(keys.value), q.rows) else q.rows)
  }

  /** Without an edge to narrow it, a query answers with its own rows, or the first of them up to its limit. */
  lemma WhatAQueryAnswers(q: EventQuery, p: TabQuery)
    ensures EventRows(q, None) == if q.limit.Some? && q.limit.value < |q.rows| then q.rows[..q.limit.value] else q.rows
    ensures TabRows(p, None) == if p.limit.Some? && p.limit.value < |p.rows| then p.rows[..p.limit.value] else p.rows
  {
  }

  /** Narrowed to an edge, it answers with rows on that edge only, and leaves none out unless it has a limit;
      that holds for all that is loaded together. */
  lemma WhatALoadAnswers(q: EventQuery, keys: seq<UUID>)
    ensures forall r :: r in EventRows(q, Some(keys)) ==> r in q.rows && r.barTabID in keys
    ensures q.limit.None? ==> forall r :: r in q.rows && r.barTabID in keys ==> r in EventRows(q, Some(keys))
    ensures q.limit.Some? ==> |EventRows(q, Some(keys))| <= q.limit.value
  {
    FilterMembers(RowAmong(keys), q.rows);
  }

  /** Whether the foreign key is among the selected columns. Loading the edge adds it. */
  predicate Keyed(q: EventQuery, withBarTab: bool) { q.fields == [] || BarTabIDField in q.fields || withBarTab }

  function AppendFieldOnce(fields: seq<EventField>, f: EventField): seq<EventField> {
    if f in fields then fields else fields + [f]
  }

  /** A narrowed query that loads the edge selects its own fields and the foreign key, and no column more
      often than it did. */
  lemma KeyIsAppendedOnce(fields: seq<EventField>, f: EventField)
    ensures fields <= AppendFieldOnce(fields, f)
    ensures multiset(AppendFieldOnce(fields, f)) == multiset(fields) + (if f in fields then multiset{} else multiset{f})
  {
  }

  /** The nodes read from rows: a column that was not selected keeps its zero value. */
  ghost predicate EventsMirror(nodes: seq<BarTabEvent>, rows: seq<EventRow>, keyed: bool) {
    && |nodes| == |rows|
    && forall i :: 0 <= i < |nodes| ==>
         nodes[i].id == rows[i].id && nodes[i].barTabID == (if keyed then rows[i].barTabID else NIL_UUID)
  }

  ghost predicate TabsMirror(nodes: seq<BarTab>, ids: seq<UUID>) {
    |nodes| == |ids| && forall i :: 0 <= i < |nodes| ==> nodes[i].id == ids[i]
  }

  // ---------------------------------------------------------------- the plain joins

  function Children(id: UUID, es: seq<BarTabEvent>): seq<BarTabEvent> { Filter(EventOf(id), es) }

  /** The last tab with an id. */
  function Parent(id: UUID, tabs: seq<BarTab>): BarTab? {
    if tabs == [] then null
    else if tabs[|tabs| - 1].id == id then tabs[|tabs| - 1]
    else Parent(id, tabs[..|tabs| - 1])
  }

  ghost predicate Shadowed(tabs: seq<BarTab>, i: nat)
    requires i < |tabs|
  {
    exists j :: i < j < |tabs| && tabs[j].id == tabs[i].id
  }

  /** What loadEvents gives the i-th tab. A map entry holds one tab, so of several with one id the last
      gets everything. */
  ghost function Attached(tabs: seq<BarTab>, i: nat, es: seq<BarTabEvent>): seq<BarTabEvent>
    requires i < |tabs|
  {
    if Shadowed(tabs, i) then [] else Children(tabs[i].id, es)
  }

  lemma {:induction false} ParentIsLast(id: UUID, tabs: seq<BarTab>)
    ensures var p := Parent(id, tabs);
            if p == null then forall i :: 0 <= i < |tabs| ==> tabs[i].id != id
            else exists i :: 0 <= i < |tabs| && tabs[i] == p && p.id == id && !Shadowed(tabs, i)
  {
    if tabs != [] {
      var init := tabs[..|tabs| - 1];
      if tabs[|tabs| - 1].id == id {
        assert !Shadowed(tabs, |tabs| - 1);
      } else {
        ParentIsLast(id, init);
        if Parent(id, init) != null {
          var i :| 0 <= i < |init| && init[i] == Parent(id, init) && init[i].id == id && !Shadowed(init, i);
          assert tabs[i] == init[i] && !Shadowed(tabs, i) by {
            forall j | i < j < |tabs| ensures tabs[j].id != tabs[i].id {
              if j < |init| { assert init[j] == tabs[j]; }
            }
          }
        }
      }
    }
  }

  /** Loading the two edges agrees: an event is among a tab's events exactly when that tab is the
      event's, whatever ids repeat on either side. */
  lemma DirectionsAgree(tabs: seq<BarTab>, i: nat, es: seq<BarTabEvent>, e: BarTabEvent)
    requires NoDup(tabs) && i < |tabs|
    ensures e in Attached(tabs, i, es) <==> e in es && Parent(e.barTabID, tabs) == tabs[i]
  {
    FilterMembers(EventOf(tabs[i].id), es);
    ParentIsLast(e.barTabID, tabs);
  }

  /** The map-indexed load is the nested-loop join exactly when no event refers to an id that several
      of the tabs have. */
  lemma LoadIsNestedLoopJoin(tabs: seq<BarTab>, es: seq<BarTabEvent>)
    ensures (forall i :: 0 <= i < |tabs| ==> Attached(tabs, i, es) == Children(tabs[i].id, es)) <==>
            (forall i, j, e :: 0 <= i < j < |tabs| && tabs[i].id == tabs[j].id && e in es ==> e.barTabID != tabs[i].id)
  {
    forall i | 0 <= i < |tabs|
      ensures Children(tabs[i].id, es) == [] <==> forall e :: e in es ==> e.barTabID != tabs[i].id
    {
      FilterMembers(EventOf(tabs[i].id), es);
      assert forall e :: e in es && e.barTabID == tabs[i].id ==> e in Children(tabs[i].id, es);
      if Children(tabs[i].id, es) != [] { assert Children(tabs[i].id, es)[0] in es; }
    }
    if i, j, e :| 0 <= i < j < |tabs| && tabs[i].id == tabs[j].id && e in es && e.barTabID == tabs[i].id {
      assert Shadowed(tabs, i);
    }
  }

  ghost function AllAttached(tabs: seq<BarTab>, n: nat, es: seq<BarTabEvent>): multiset<BarTabEvent>
    requires n <= |tabs|
  {
    if n == 0 then multiset{} else AllAttached(tabs, n - 1, es) + multiset(Attached(tabs, n - 1, es))
  }

  function Once(b: bool, e: BarTabEvent): multiset<BarTabEvent> { if b then multiset{e} else multiset{} }

  lemma OneMoreAttached(tabs: seq<BarTab>, i: nat, es: seq<BarTabEvent>, e: BarTabEvent)
    requires i < |tabs|
    ensures multiset(Attached(tabs, i, es + [e])) ==
            multiset(Attached(tabs, i, es)) + Once(tabs[i].id == e.barTabID && !Shadowed(tabs, i), e)
  {
    FilterOneMore(EventOf(tabs[i].id), es, e);
    hide Filter;
  }

  predicate Taken(tabs: seq<BarTab>, n: nat, id: UUID)
    requires n <= |tabs|
  {
    exists i :: 0 <= i < n && tabs[i].id == id && forall j :: i < j < |tabs| ==> tabs[j].id != id
  }

  lemma Regroup(a: multiset<BarTabEvent>, b: multiset<BarTabEvent>, c: multiset<BarTabEvent>,
                d: multiset<BarTabEvent>)
    ensures (a + b) + (c + d) == (a + c) + (b + d)
  {
  }

  lemma TakenByOne(tabs: seq<BarTab>, n: nat, id: UUID)
    requires 0 < n <= |tabs|
    ensures Taken(tabs, n, id) <==> Taken(tabs, n - 1, id) || (tabs[n - 1].id == id && !Shadowed(tabs, n - 1))
    ensures !(Taken(tabs, n - 1, id) && tabs[n - 1].id == id)
  {
  }

  lemma {:induction false} OneMoreEvent(tabs: seq<BarTab>, n: nat, es: seq<BarTabEvent>, e: BarTabEvent)
    requires n <= |tabs|
    ensures AllAttached(tabs, n, es + [e]) == AllAttached(tabs, n, es) + Once(Taken(tabs, n, e.barTabID), e)
  {
    if n > 0 {
      var taken, own := Taken(tabs, n - 1, e.barTabID), tabs[n - 1].id == e.barTabID && !Shadowed(tabs, n - 1);
      OneMoreEvent(tabs, n - 1, es, e);
      OneMoreAttached(tabs, n - 1, es, e);
      TakenByOne(tabs, n, e.barTabID);
      assert Once(taken || own, e) == Once(taken, e) + Once(own, e);
      hide Attached, Taken, Once;
      Regroup(AllAttached(tabs, n - 1, es), Once(taken, e), multiset(Attached(tabs, n - 1, es)), Once(own, e));
    }
  }

  lemma {:induction false} NothingAttached(tabs: seq<BarTab>, n: nat)
    requires n <= |tabs|
    ensures AllAttached(tabs, n, []) == multiset{}
  {
    if n > 0 { NothingAttached(tabs, n - 1); }
  }

  /** The tabs' lists together hold every loaded event exactly once, even if ids repeat. */
  lemma {:induction false} EventsArePartitioned(tabs: seq<BarTab>, es: seq<BarTabEvent>)
    requires forall e :: e in es ==> Parent(e.barTabID, tabs) != null
    ensures AllAttached(tabs, |tabs|, es) == multiset(es)
  {
    if es == [] {
      NothingAttached(tabs, |tabs|);
    } else {
      var init, e := es[..|es| - 1], es[|es| - 1];
      assert es == init + [e];
      EventsArePartitioned(tabs, init);
      OneMoreEvent(tabs, |tabs|, init, e);
      ParentIsLast(e.barTabID, tabs);
    }
  }

  // ---------------------------------------------------------------- tabs with their events

  function TabIDs(tabs: seq<BarTab>): (r: seq<UUID>)
    ensures |r| == |tabs| && forall i :: 0 <= i < |tabs| ==> r[i] == tabs[i].id
  {
    seq(|tabs|, i requires 0 <= i < |tabs| => tabs[i].id)
  }

  /** One more event goes to its parent and to no other tab. */
  lemma AttachedStep(tabs: seq<BarTab>, i: nat, es: seq<BarTabEvent>, e: BarTabEvent)
    requires NoDup(tabs) && i < |tabs|
    ensures Attached(tabs, i, es + [e]) ==
            Attached(tabs, i, es) + (if Parent(e.barTabID, tabs) == tabs[i] then [e] else [])
  {
    ParentIsLast(e.barTabID, tabs);
    FilterOneMore(EventOf(tabs[i].id), es, e);
    hide Children, Parent;
  }

  /** The k-th child is the first without a parent here. */
  ghost predicate FirstStray(nodes: seq<BarTab>, es: seq<BarTabEvent>, k: nat) {
    && k < |es| && Parent(es[k].barTabID, nodes) == null
    && forall e :: e in es[..k] ==> Parent(e.barTabID, nodes) != null
  }

  ghost predicate Carry(nodes: seq<BarTab>, es: seq<BarTabEvent>)
    reads nodes
  {
    forall i :: 0 <= i < |nodes| ==> nodes[i].events == Attached(nodes, i, es)
  }

  /** The closing loop of loadEvents, for any children at all. */
  method AssignEvents(nodes: seq<BarTab>, nodeids: map<UUID, BarTab>, neighbors: seq<BarTabEvent>)
    returns (err: Option<LoadError>)
    requires NoDup(nodes) && forall n :: n in nodes ==> n.events == []
    requires forall id :: id in nodeids <==> Parent(id, nodes) != null
    requires forall id :: id in nodeids ==> nodeids[id] == Parent(id, nodes)
    modifies nodes
    ensures err.None? <==> forall e :: e in neighbors ==> Parent(e.barTabID, nodes) != null
    ensures err.None? ==> forall i :: 0 <= i < |nodes| ==> nodes[i].events == Attached(nodes, i, neighbors)
    ensures err.Some? ==>
              exists k: nat :: && FirstStray(nodes, neighbors, k) && err.value == UnexpectedKey(neighbors[k].barTabID)
                               && Carry(nodes, neighbors[..k])
  {
    var k := 0;
    assert forall i :: 0 <= i < |nodes| ==> Attached(nodes, i, []) == [];
    hide Attached, Shadowed, Children;
    while k < |neighbors|
      invariant 0 <= k <= |neighbors|
      invariant forall i :: 0 <= i < |nodes| ==> nodes[i].events == Attached(nodes, i, neighbors[..k])
      invariant forall e :: e in neighbors[..k] ==> Parent(e.barTabID, nodes) != null
    {
      var e := neighbors[k];
      if e.barTabID !in nodeids {
        assert FirstStray(nodes, neighbors, k) && Carry(nodes, neighbors[..k]);
        return Some(UnexpectedKey(e.barTabID));
      }
      ParentIsLast(e.barTabID, nodes);
      var node := nodeids[e.barTabID];
      node.events := node.events + [e];
      assert neighbors[..k + 1] == neighbors[..k] + [e];
      forall i | 0 <= i < |nodes| ensures nodes[i].events == Attached(nodes, i, neighbors[..k + 1]) {
        AttachedStep(nodes, i, neighbors[..k], e);
      }
      k := k + 1;
    }
    assert neighbors[..k] == neighbors;
    err := None;
  }

  lemma ParentByIDs(id: UUID, tabs: seq<BarTab>)
    ensures Parent(id, tabs) != null <==> id in TabIDs(tabs)
  {
    ParentIsLast(id, tabs);
    assert forall i :: 0 <= i < |tabs| ==> TabIDs(tabs)[i] == tabs[i].id;
  }

  /** The nodes of an event query: one new object a row. */
  method AllEvents(q: EventQuery, keys: Option<seq<UUID>>, withBarTab: bool)
    returns (err: Option<LoadError>, nodes: seq<BarTabEvent>)
    ensures err == if q.fails then Some(QueryFailed) else None
    ensures err.None? ==> EventsMirror(nodes, EventRows(q, keys), Keyed(q, withBarTab))
    ensures NoDup(nodes) && forall j :: 0 <= j < |nodes| ==> fresh(nodes[j]) && nodes[j].barTab == null
  {
    nodes := [];
    if q.fails {
      return Some(QueryFailed), nodes;
    }
    var rows := EventRows(q, keys);
    var i := 0;
    while i < |rows|
      invariant 0 <= i <= |rows| && EventsMirror(nodes, rows[..i], Keyed(q, withBarTab))
      invariant NoDup(nodes) && forall j :: 0 <= j < |nodes| ==> fresh(nodes[j]) && nodes[j].barTab == null
    {
      var node := new BarTabEvent(rows[i].id, if Keyed(q, withBarTab) then rows[i].barTabID else NIL_UUID);
      nodes := nodes + [node];
      i := i + 1;
    }
    assert rows[..i] == rows;
    err := None;
  }

  /** loadEvents: the IN filter, and the foreign key added to a narrowed field list, leave no way to
      meet an unexpected key. On a failed query every tab is left with an empty list. */
  method LoadEvents(q: EventQuery, nodes: seq<BarTab>) returns (err: Option<LoadError>, loaded: seq<BarTabEvent>)
    requires NoDup(nodes)
    modifies nodes
    ensures err == if q.fails then Some(QueryFailed) else None
    ensures err.Some? ==> forall n :: n in nodes ==> n.events == []
    ensures err.None? ==> EventsMirror(loaded, EventRows(q, Some(TabIDs(nodes))), true)
    ensures err.None? ==> forall i :: 0 <= i < |nodes| ==> nodes[i].events == Attached(nodes, i, loaded)
    ensures err.None? ==> forall e :: e in loaded ==> Parent(e.barTabID, nodes) != null
  {
    var fks: seq<UUID> := [];
    var nodeids: map<UUID, BarTab> := map[];
    var i := 0;
    while i < |nodes|
      invariant 0 <= i <= |nodes| && fks == TabIDs(nodes[..i])
      invariant forall j :: 0 <= j < i ==> nodes[j].events == []
      invariant forall id :: id in nodeids <==> Parent(id, nodes[..i]) != null
      invariant forall id :: id in nodeids ==> nodeids[id] == Parent(id, nodes[..i])
    {
      assert nodes[..i + 1][..i] == nodes[..i];
      fks := fks + [nodes[i].id];
      nodeids := nodeids[nodes[i].id := nodes[i]];
      nodes[i].events := [];
      i := i + 1;
    }
    assert nodes[..i] == nodes;
    var narrowed := if q.fields == [] then q else q.(fields := AppendFieldOnce(q.fields, BarTabIDField));
    err, loaded := AllEvents(narrowed, Some(fks), false);
    if err.None? {
      forall e | e in loaded ensures Parent(e.barTabID, nodes) != null {
        FilterMembers(RowAmong(fks), q.rows);
        var k :| 0 <= k < |loaded| && loaded[k] == e;
        assert EventRows(q, Some(fks))[k] in Filter(RowAmong(fks), q.rows);
        ParentByIDs(e.barTabID, nodes);
      }
      err := AssignEvents(nodes, nodeids, loaded);
    }
  }

  /** The nodes of a tab query. */
  method AllTabs(q: TabQuery, keys: Option<seq<UUID>>) returns (err: Option<LoadError>, nodes: seq<BarTab>)
    ensures err == if q.fails then Some(QueryFailed) else None
    ensures err.None? ==> TabsMirror(nodes, TabRows(q, keys))
    ensures NoDup(nodes) && forall j :: 0 <= j < |nodes| ==> fresh(nodes[j]) && nodes[j].events == []
  {
    nodes := [];
    if q.fails {
      return Some(QueryFailed), nodes;
    }
    var rows := TabRows(q, keys);
    var i := 0;
    while i < |rows|
      invariant 0 <= i <= |rows| && TabsMirror(nodes, rows[..i])
      invariant NoDup(nodes) && forall j :: 0 <= j < |nodes| ==> fresh(nodes[j]) && nodes[j].events == []
    {
      var node := new BarTab(rows[i]);
      nodes := nodes + [node];
      i := i + 1;
    }
    assert rows[..i] == rows;
    err := None;
  }

  // ---------------------------------------------------------------- against the tables

  /** The plain join on rows. */
  function RowsOf(id: UUID, rows: seq<EventRow>): seq<EventRow> { Filter(RowOf(id), rows) }

  lemma {:induction false} ChildrenMirrorRows(id: UUID, es: seq<BarTabEvent>, rows: seq<EventRow>)
    requires EventsMirror(es, rows, true)
    ensures EventsMirror(Children(id, es), RowsOf(id, rows), true)
  {
    if es != [] { ChildrenMirrorRows(id, es[..|es| - 1], rows[..|rows| - 1]); }
  }

  /** With a limit on the loaded edge, which the database applies to all children together, a tab's
      events are the first so many of its rows; without one, all of them. */
  lemma LoadedRowsOf(id: UUID, q: EventQuery, keys: seq<UUID>)
    requires id in keys
    ensures RowsOf(id, EventRows(q, Some(keys))) <= RowsOf(id, q.rows)
    ensures q.limit.None? ==> RowsOf(id, EventRows(q, Some(keys))) == RowsOf(id, q.rows)
  {
    var narrowed := Filter(RowAmong(keys), q.rows);
    FilterOfFilter(RowOf(id), RowAmong(keys), q.rows);
    if q.limit.Some? && q.limit.value < |narrowed| {
      FilterOfPrefix(RowOf(id), narrowed, q.limit.value);
    }
  }

  /** What a tab carries, against the rows: those that refer to it, in order, up to where a limit on
      the edge cut the load off. */
  ghost predicate CarriesRows(events: seq<BarTabEvent>, id: UUID, q: EventQuery) {
    var rows := RowsOf(id, q.rows);
    && |events| <= |rows| && EventsMirror(events, rows[..|events|], true)
    && (q.limit.None? ==> |events| == |rows|)
  }

  lemma AttachedCarryRows(nodes: seq<BarTab>, i: nat, q: EventQuery, loaded: seq<BarTabEvent>)
    requires i < |nodes| && NoDup(TabIDs(nodes)) && EventsMirror(loaded, EventRows(q, Some(TabIDs(nodes))), true)
    ensures CarriesRows(Attached(nodes, i, loaded), nodes[i].id, q)
  {
    var ids := TabIDs(nodes);
    assert ids[i] == nodes[i].id && forall j :: i < j < |nodes| ==> ids[j] != ids[i];
    ChildrenMirrorRows(nodes[i].id, loaded, EventRows(q, Some(ids)));
    LoadedRowsOf(nodes[i].id, q, ids);
  }

  /** sqlAll on tabs. With distinct ids and no limit on the edge, each tab carries exactly the rows of
      the event query that refer to it. */
  method SqlAllTabs(q: TabQuery, withEvents: Option<EventQuery>) returns (err: Option<LoadError>, nodes: seq<BarTab>)
    ensures err.Some? <==> q.fails || (withEvents.Some? && withEvents.value.fails && TabRows(q, None) != [])
    ensures err.None? ==> TabsMirror(nodes, TabRows(q, None)) && NoDup(nodes)
    ensures err.None? && withEvents.Some? && NoDup(TabRows(q, None)) ==>
              forall i :: 0 <= i < |nodes| ==> CarriesRows(nodes[i].events, nodes[i].id, withEvents.value)
  {
    err, nodes := AllTabs(q, None);
    if err.Some? || nodes == [] {
      return;
    }
    assert TabIDs(nodes) == TabRows(q, None);
    if withEvents.Some? {
      hide Attached, EventRows, TabRows, EventsMirror, CarriesRows, Parent;
      var loaded: seq<BarTabEvent>;
      err, loaded := LoadEvents(withEvents.value, nodes);
      if err.None? && NoDup(TabIDs(nodes)) {
        forall i | 0 <= i < |nodes| { AttachedCarryRows(nodes, i, withEvents.value, loaded); }
      }
    }
  }

  // ---------------------------------------------------------------- events with their tab

  function Keys(es: seq<BarTabEvent>): (r: seq<UUID>)
    ensures |r| == |es| && forall i :: 0 <= i < |es| ==> r[i] == es[i].barTabID
  {
    seq(|es|, i requires 0 <= i < |es| => es[i].barTabID)
  }

  /** One parent, for all the children that wait under its id. */
  method AssignBarTab(children: seq<BarTabEvent>, tab: BarTab)
    modifies children
    ensures forall e :: e in children ==> e.barTab == tab
  {
    var i := 0;
    while i < |children|
      invariant 0 <= i <= |children|
      invariant forall j :: 0 <= j < i ==> children[j].barTab == tab
    {
      children[i].barTab := tab;
      i := i + 1;
    }
  }

  lemma NoKeyNoChildren(id: UUID, es: seq<BarTabEvent>)
    ensures id !in Keys(es) ==> Children(id, es) == []
  {
    FilterMembers(EventOf(id), es);
    assert forall j :: 0 <= j < |es| ==> Keys(es)[j] == es[j].barTabID;
    if Children(id, es) != [] { assert Children(id, es)[0] in es; }
  }

  lemma OneMoreKey(es: seq<BarTabEvent>, e: BarTabEvent)
    ensures Keys(es + [e]) == Keys(es) + [e.barTabID]
    ensures Firsts(Keys(es + [e])) == Firsts(Keys(es)) + (if e.barTabID in Keys(es) then [] else [e.barTabID])
    ensures forall id :: Children(id, es + [e]) == if e.barTabID == id then Children(id, es) + [e] else Children(id, es)
    ensures e.barTabID !in Keys(es) ==> Children(e.barTabID, es) == []
  {
    NoKeyNoChildren(e.barTabID, es);
    forall id
      ensures Children(id, es + [e]) == if e.barTabID == id then Children(id, es) + [e] else Children(id, es)
    {
      FilterOneMore(EventOf(id), es, e);
    }
    hide Children, Filter, EventOf;
    assert Keys(es + [e]) == Keys(es) + [e.barTabID];
    assert Keys(es + [e])[..|es|] == Keys(es);
    FirstsKeepEachOnce(Keys(es));
  }

  /** Under every key of es, and no other, the events that have it. */
  ghost predicate Grouped(nodeids: map<UUID, seq<BarTabEvent>>, es: seq<BarTabEvent>) {
    && (forall id :: id in nodeids <==> id in Keys(es))
    && (forall id :: id in nodeids ==> nodeids[id] == Children(id, es))
  }

  lemma GroupedOneMore(nodeids: map<UUID, seq<BarTabEvent>>, es: seq<BarTabEvent>, e: BarTabEvent)
    requires Grouped(nodeids, es)
    ensures var fk := e.barTabID;
            Grouped(nodeids[fk := (if fk in nodeids then nodeids[fk] else []) + [e]], es + [e])
  {
    OneMoreKey(es, e);
    hide Children, Keys;
  }

  /** The first loop of loadBarTab: each key once, and the nodes that wait for it. */
  method GroupByKey(nodes: seq<BarTabEvent>) returns (ids: seq<UUID>, nodeids: map<UUID, seq<BarTabEvent>>)
    ensures ids == Firsts(Keys(nodes)) && Grouped(nodeids, nodes)
  {
    ids, nodeids := [], map[];
    var i := 0;
    while i < |nodes|
      invariant 0 <= i <= |nodes| && ids == Firsts(Keys(nodes[..i])) && Grouped(nodeids, nodes[..i])
    {
      var fk := nodes[i].barTabID;
      assert nodes[..i + 1] == nodes[..i] + [nodes[i]];
      OneMoreKey(nodes[..i], nodes[i]);
      GroupedOneMore(nodeids, nodes[..i], nodes[i]);
      assert fk in nodeids <==> fk in Keys(nodes[..i]);
      hide Firsts, Children, Keys, Grouped;
      if fk !in nodeids {
        ids := ids + [fk];
      }
      nodeids := nodeids[fk := (if fk in nodeids then nodeids[fk] else []) + [nodes[i]]];
      i := i + 1;
    }
    assert nodes[..i] == nodes;
  }

  lemma ParentOfOneMore(id: UUID, tabs: seq<BarTab>, tab: BarTab)
    ensures Parent(id, tabs + [tab]) == if tab.id == id then tab else Parent(id, tabs)
  {
    assert (tabs + [tab])[..|tabs|] == tabs;
  }

  /** The k-th parent is the first that nobody waits for. */
  ghost predicate FirstUnasked(nodes: seq<BarTabEvent>, tabs: seq<BarTab>, k: nat) {
    && k < |tabs| && tabs[k].id !in Keys(nodes)
    && forall t :: t in tabs[..k] ==> t.id in Keys(nodes)
  }

  ghost predicate HaveParents(nodes: seq<BarTabEvent>, tabs: seq<BarTab>)
    reads nodes
  {
    forall n :: n in nodes ==> n.barTab == Parent(n.barTabID, tabs)
  }

  /** The closing loop of loadBarTab, for any parents at all. */
  method AssignParents(nodes: seq<BarTabEvent>, nodeids: map<UUID, seq<BarTabEvent>>, neighbors: seq<BarTab>)
    returns (err: Option<LoadError>)
    requires forall n :: n in nodes ==> n.barTab == null
    requires Grouped(nodeids, nodes)
    modifies nodes
    ensures err.None? <==> forall t :: t in neighbors ==> t.id in Keys(nodes)
    ensures err.None? ==> forall n :: n in nodes ==> n.barTab == Parent(n.barTabID, neighbors)
    ensures err.Some? ==>
              exists k: nat :: && FirstUnasked(nodes, neighbors, k) && err.value == UnexpectedKey(neighbors[k].id)
                               && HaveParents(nodes, neighbors[..k])
  {
    var k := 0;
    assert forall n :: n in nodes ==> Parent(n.barTabID, []) == null;
    hide Parent, Children;
    while k < |neighbors|
      invariant 0 <= k <= |neighbors|
      invariant forall n :: n in nodes ==> n.barTab == Parent(n.barTabID, neighbors[..k])
      invariant forall t :: t in neighbors[..k] ==> t.id in Keys(nodes)
    {
      var tab := neighbors[k];
      if tab.id !in nodeids {
        assert FirstUnasked(nodes, neighbors, k) && HaveParents(nodes, neighbors[..k]);
        return Some(UnexpectedKey(tab.id));
      }
      FilterMembers(EventOf(tab.id), nodes);
      AssignBarTab(nodeids[tab.id], tab);
      assert neighbors[..k + 1] == neighbors[..k] + [tab];
      forall n | n in nodes ensures n.barTab == Parent(n.barTabID, neighbors[..k + 1]) {
        ParentOfOneMore(n.barTabID, neighbors[..k], tab);
      }
      k := k + 1;
    }
    assert neighbors[..k] == neighbors;
    err := None;
  }

  /** loadBarTab: every event gets the last parent with its key, each parent is asked for once, and the
      IN filter leaves no way to meet an unexpected key. */
  method LoadBarTab(q: TabQuery, nodes: seq<BarTabEvent>) returns (err: Option<LoadError>, loaded: seq<BarTab>)
    requires forall n :: n in nodes ==> n.barTab == null
    modifies nodes
    ensures err == if q.fails && nodes != [] then Some(QueryFailed) else None
    ensures err.None? ==> TabsMirror(loaded, TabRows(q, Some(Firsts(Keys(nodes))))) || nodes == []
    ensures err.None? ==> forall n :: n in nodes ==> n.barTab == Parent(n.barTabID, loaded)
  {
    var ids, nodeids := GroupByKey(nodes);
    FirstsKeepEachOnce(Keys(nodes));
    loaded := [];
    assert nodes != [] ==> Keys(nodes)[0] in ids;
    if |ids| == 0 {
      return None, [];
    }
    err, loaded := AllTabs(q, Some(ids));
    if err.None? {
      FilterMembers(IDAmong(ids), q.rows);
      forall t | t in loaded ensures t.id in Keys(nodes) {
        var k :| 0 <= k < |loaded| && loaded[k] == t;
        assert TabRows(q, Some(ids))[k] in Filter(IDAmong(ids), q.rows);
      }
      err := AssignParents(nodes, nodeids, loaded);
    }
  }

  lemma ParentFromRows(q: TabQuery, nodes: seq<BarTabEvent>, i: nat, loaded: seq<BarTab>)
    requires i < |nodes| && TabsMirror(loaded, TabRows(q, Some(Firsts(Keys(nodes)))))
    ensures var fk := nodes[i].barTabID;
            var tab := Parent(fk, loaded);
            && (tab != null ==> tab.id == fk && fk in q.rows)
            && (q.limit.None? && fk in q.rows ==> tab != null)
  {
    var fk, ids := nodes[i].barTabID, Firsts(Keys(nodes));
    assert Keys(nodes)[i] == fk;
    FirstsKeepEachOnce(Keys(nodes));
    FilterMembers(IDAmong(ids), q.rows);
    ParentIsLast(fk, loaded);
    var rows := TabRows(q, Some(ids));
    if Parent(fk, loaded) != null {
      var k :| 0 <= k < |loaded| && loaded[k] == Parent(fk, loaded) && loaded[k].id == fk;
      assert rows[k] in Filter(IDAmong(ids), q.rows);
    }
    if q.limit.None? && fk in q.rows {
      var k :| 0 <= k < |rows| && rows[k] == fk;
      assert loaded[k].id == fk;
    }
  }

  /** sqlAll on events. Loading the edge selects the foreign key even from a narrowed query, so without
      a limit on the edge an event has a tab exactly when its row refers to one, and then that one. */
  method SqlAllEvents(q: EventQuery, withBarTab: Option<TabQuery>) returns (err: Option<LoadError>,
                                                                            nodes: seq<BarTabEvent>)
    ensures err.Some? <==> q.fails || (withBarTab.Some? && withBarTab.value.fails && EventRows(q, None) != [])
    ensures err.None? ==> EventsMirror(nodes, EventRows(q, None), Keyed(q, withBarTab.Some?))
    ensures err.None? ==> forall i :: 0 <= i < |nodes| ==>
              nodes[i].barTabID == if q.fields == [] || BarTabIDField in q.fields || withBarTab.Some?
                                   then EventRows(q, None)[i].barTabID else NIL_UUID
    ensures err.None? && withBarTab.Some? ==>
              forall i :: 0 <= i < |nodes| ==>
                var row, tab := EventRows(q, None)[i], nodes[i].barTab;
                && (tab != null ==> tab.id == row.barTabID && row.barTabID in withBarTab.value.rows)
                && (withBarTab.value.limit.None? && row.barTabID in withBarTab.value.rows ==> tab != null)
  {
    err, nodes := AllEvents(q, None, withBarTab.Some?);
    if err.Some? || nodes == [] {
      return;
    }
    if withBarTab.Some? {
      var loaded: seq<BarTab>;
      err, loaded := LoadBarTab(withBarTab.value, nodes);
      if err.None? {
        forall i | 0 <= i < |nodes|
          ensures nodes[i].barTabID == EventRows(q, None)[i].barTabID
          ensures var tab := nodes[i].barTab;
                  && (tab != null ==> tab.id == nodes[i].barTabID && tab.id in withBarTab.value.rows)
                  && (withBarTab.value.limit.None? && nodes[i].barTabID in withBarTab.value.rows ==> tab != null)
        {
          ParentFromRows(withBarTab.value, nodes, i, loaded);
        }
      }
    }
  }

  // ---------------------------------------------------------------- both edges, end to end

  predicate HasEvent(events: seq<BarTabEvent>, x: UUID) { exists e :: e in events && e.id == x }

  /** A tab that carries its rows has an event of a given id exactly if one of the rows has that id and
      refers to the tab. */
  lemma CarriedEvents(events: seq<BarTabEvent>, id: UUID, q: EventQuery, x: UUID)
    requires CarriesRows(events, id, q) && q.limit.None?
    ensures HasEvent(events, x) <==> EventRow(x, id) in q.rows
  {
    FilterMembers(RowOf(id), q.rows);
    var rows := RowsOf(id, q.rows);
    assert rows[..|events|] == rows;
    if EventRow(x, id) in q.rows {
      var k :| 0 <= k < |rows| && rows[k] == EventRow(x, id);
      assert events[k].id == x;
    }
    if e :| e in events && e.id == x {
      var k :| 0 <= k < |events| && events[k] == e;
      assert rows[k] in rows && rows[k] == EventRow(x, id);
    }
  }

  /** An event of id x refers to a tab of the given id. Loading makes new nodes on the other side of the
      edge, so ids are all that the two ways have in common. */
  predicate HasReference(events: seq<BarTabEvent>, x: UUID, tab: UUID)
    reads events
  {
    exists e :: e in events && e.id == x && e.barTab != null && e.barTab.id == tab
  }

  lemma ReferringEvents(events: seq<BarTabEvent>, q: EventQuery, tabQuery: TabQuery, x: UUID, tab: UUID)
    requires EventsMirror(events, q.rows, true) && tab in tabQuery.rows
    requires forall i :: 0 <= i < |events| ==>
               && (events[i].barTab != null ==> events[i].barTab.id == q.rows[i].barTabID)
               && (q.rows[i].barTabID in tabQuery.rows ==> events[i].barTab != null)
    ensures HasReference(events, x, tab) <==> EventRow(x, tab) in q.rows
  {
    if EventRow(x, tab) in q.rows {
      var k :| 0 <= k < |q.rows| && q.rows[k] == EventRow(x, tab);
      assert events[k] in events && events[k].id == x && events[k].barTab != null && events[k].barTab.id == tab;
    }
    if e :| e in events && e.id == x && e.barTab != null && e.barTab.id == tab {
      var k :| 0 <= k < |events| && events[k] == e;
      assert q.rows[k] == EventRow(x, tab);
    }
  }

  /** Both edges from the same two tables, each loaded by a query of its own, however narrowed to other
      fields: with distinct tab ids and no limit, tab t carries an event of id x exactly when the
      events query has a node of id x whose tab has t's id. */
  method LoadBothWays(tabQuery: TabQuery, eventQuery: EventQuery)
    returns (tabs: seq<BarTab>, events: seq<BarTabEvent>, err: Option<LoadError>)
    requires NoDup(tabQuery.rows) && tabQuery.limit.None? && eventQuery.limit.None?
    ensures err.Some? <==> tabQuery.fails || eventQuery.fails
    ensures err.None? ==> TabsMirror(tabs, tabQuery.rows) && EventsMirror(events, eventQuery.rows, true)
    ensures err.None? ==> forall i, x :: 0 <= i < |tabs| ==>
              (HasEvent(tabs[i].events, x) <==> HasReference(events, x, tabs[i].id))
  {
    events := [];
    err, tabs := SqlAllTabs(tabQuery, Some(eventQuery));
    if err.Some? {
      return;
    }
    err, events := SqlAllEvents(eventQuery, Some(tabQuery));
    if err.None? {
      forall i, x | 0 <= i < |tabs|
        ensures HasEvent(tabs[i].events, x) <==> HasReference(events, x, tabs[i].id)
      {
        CarriedEvents(tabs[i].events, tabs[i].id, eventQuery, x);
        ReferringEvents(events, eventQuery, tabQuery, x, tabs[i].id);
      }
    }
  }
}
