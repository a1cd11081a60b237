/** What every sequence of reconciliations, forgets and document deletions keeps true of the memory tables. */
module MemoryInvariants {
  import opened Options
  import opened Memories

  // ---- the invariant ------------------------------------------------------------------------------

  ghost predicate RowsOk(t: Tables) {
    && t.active.Keys == t.memories.Keys
    && (forall id | id in t.memories :: id < t.nextId)
  }

  predicate SameScope(a: Memory, b: Memory) {
    a.org == b.org && a.container == b.container
  }

  /** Relations connect existing rows of one scope, from an older row to a younger one. */
  ghost predicate EdgesOk(t: Tables) {
    forall e | e in t.relations ::
      && e.parent in t.memories && e.child in t.memories && e.parent < e.child
      && SameScope(t.memories[e.parent], t.memories[e.child])
  }

  ghost predicate Related(t: Tables, parent: Id, child: Id) {
    Edge(parent, child, Updates) in t.relations || Edge(parent, child, Extends) in t.relations
    || Edge(parent, child, Derives) in t.relations
  }

  /** A row without parent starts a lineage; any other extends its parent's by one version. */
  ghost predicate LineageRow(t: Tables, id: Id)
    requires id in t.memories
  {
    var m := t.memories[id];
    match m.parent
    case None => m.root == None && m.version == 1
    case Some(p) =>
      && p in t.memories && p < id && SameScope(t.memories[p], m)
      && m.version == t.memories[p].version + 1
      && m.root == Some(if t.memories[p].root.Some? then t.memories[p].root.value else p)
      && Related(t, p, id)
  }

  ghost predicate LineageOk(t: Tables) {
    forall id | id in t.memories :: LineageRow(t, id)
  }

  ghost predicate Updated(t: Tables, id: Id) {
    exists child :: Edge(id, child, Updates) in t.relations
  }

  /** The flags of a row are determined by its relations and by forgetting. */
  ghost predicate FlagsRow(t: Tables, id: Id)
    requires id in t.memories && id in t.active
  {
    var m := t.memories[id];
    && t.active[id] == m.isLatest
    && (m.isStatic ==> m.isLatest)
    && (m.isLatest <==> !m.isForgotten && !Updated(t, id))
  }

  ghost predicate FlagsOk(t: Tables)
    requires RowsOk(t)
  {
    forall id | id in t.memories :: FlagsRow(t, id)
  }

  /** A forgotten row is expired from the moment it was forgotten. */
  ghost predicate ForgottenExpired(t: Tables, now: nat) {
    forall id | id in t.memories && t.memories[id].isForgotten :: Expired(t.memories[id], now)
  }

  /** No two active rows of one scope have the same normalized content. */
  ghost predicate UniqueContent(norm: Normalizer, t: Tables) {
    forall org, container, a, b | IsActive(t, org, container, a) && IsActive(t, org, container, b)
                                  && norm(t.memories[a].content) == norm(t.memories[b].content) :: a == b
  }

  ghost predicate Inv(norm: Normalizer, t: Tables, now: nat) {
    RowsOk(t) && EdgesOk(t) && LineageOk(t) && FlagsOk(t) && ForgottenExpired(t, now) && UniqueContent(norm, t)
  }

  // ---- linking ------------------------------------------------------------------------------------

  ghost predicate UpdatedBy(parents: seq<Resolved>, id: Id) {
    exists i :: 0 <= i < |parents| && parents[i].id == id && parents[i].relation == Updates
  }

  ghost predicate LinkedBy(parents: seq<Resolved>, child: Id, e: Edge) {
    exists i :: 0 <= i < |parents| && e == Edge(parents[i].id, child, parents[i].relation)
  }

  function Demoted(m: Memory): Memory {
    m.(isLatest := false, isStatic := false)
  }

  /** Linking adds exactly one edge per parent and demotes exactly the parents that are updated. */
  lemma {:induction false} LinkEffect(t: Tables, child: Id, parents: seq<Resolved>)
    ensures var r := Link(t, child, parents);
            && r.sources == t.sources && r.nextId == t.nextId
            && r.memories.Keys == t.memories.Keys && r.active.Keys == t.active.Keys
            && (forall e :: e in r.relations <==> e in t.relations || LinkedBy(parents, child, e))
            && (forall id | id in t.memories ::
                  r.memories[id] == if UpdatedBy(parents, id) then Demoted(t.memories[id]) else t.memories[id])
            && (forall id | id in t.active :: r.active[id] == (t.active[id] && !UpdatedBy(parents, id)))
  {
    if parents != [] {
      var n := |parents| - 1;
      var front, p := parents[..n], parents[n];
      LinkEffect(t, child, front);
      assert parents == front + [p];
      forall id ensures UpdatedBy(parents, id) <==> UpdatedBy(front, id) || (p.id == id && p.relation == Updates) {
        if UpdatedBy(front, id) {
          var i :| 0 <= i < |front| && front[i].id == id && front[i].relation == Updates;
          assert parents[i] == front[i];
        }
        if p.id == id && p.relation == Updates { assert parents[n] == p; }
      }
      forall e
        ensures LinkedBy(parents, child, e) <==> LinkedBy(front, child, e) || e == Edge(p.id, child, p.relation)
      {
        if LinkedBy(front, child, e) {
          var i :| 0 <= i < |front| && e == Edge(front[i].id, child, front[i].relation);
          assert parents[i] == front[i];
        }
        if e == Edge(p.id, child, p.relation) { assert parents[n] == p; }
      }
    }
  }

  lemma {:induction false} ResolvedInScope(t: Tables, src: Source, parents: seq<Parent>, temporary: map<Id, Id>)
    ensures forall r | r in ResolveParents(t, src, parents, temporary) ::
              && InScope(t, src.org, src.container, r.id)
              && r.root == t.memories[r.id].root && r.version == t.memories[r.id].version
  {
    if parents != [] {
      ResolvedInScope(t, src, parents[..|parents| - 1], temporary);
    }
  }

  // ---- the batch ----------------------------------------------------------------------------------

  /** The row is in the batch's scope and its content normalizes to the key. */
  ghost predicate Holds(norm: Normalizer, t: Tables, src: Source, id: Id, key: string) {
    InScope(t, src.org, src.container, id) && norm(t.memories[id].content) == key
  }

  /** The dedup map knows every active row of the batch's scope, whatever else it still remembers. */
  ghost predicate Indexed(norm: Normalizer, b: Batch, src: Source) {
    && (forall key | key in b.exact :: Holds(norm, b.tables, src, b.exact[key], key))
    && (forall id | IsActive(b.tables, src.org, src.container, id) ::
          norm(b.tables.memories[id].content) in b.exact && b.exact[norm(b.tables.memories[id].content)] == id)
  }

  ghost predicate BatchInv(norm: Normalizer, b: Batch, src: Source, now: nat) {
    Inv(norm, b.tables, now) && Indexed(norm, b, src)
  }

  lemma {:induction false} ActiveRowsExact(t: Tables, org: string, container: string, n: nat)
    ensures forall row :: row in ActiveRows(t, org, container, n) <==>
              row.0 < n && IsActive(t, org, container, row.0) && row.1 == t.memories[row.0].content
  {
    if n > 0 {
      ActiveRowsExact(t, org, container, n - 1);
    }
  }

  lemma {:induction false} IndexCovers(norm: Normalizer, rows: seq<(Id, string)>)
    ensures forall key | key in IndexByContent(norm, rows) ::
              exists row :: row in rows && row.0 == IndexByContent(norm, rows)[key] && norm(row.1) == key
    ensures forall row | row in rows :: norm(row.1) in IndexByContent(norm, rows)
  {
    if rows != [] {
      var front, last := rows[..|rows| - 1], rows[|rows| - 1];
      assert rows == front + [last];
      IndexCovers(norm, front);
      var index := IndexByContent(norm, rows);
      forall key | key in index ensures exists row :: row in rows && row.0 == index[key] && norm(row.1) == key {
        if key in IndexByContent(norm, front) {
          var row :| row in front && row.0 == IndexByContent(norm, front)[key] && norm(row.1) == key;
          assert row in rows;
        } else {
          assert last in rows && last.0 == index[key];
        }
      }
    }
  }

  lemma BeginIsIndexed(norm: Normalizer, t: Tables, src: Source, now: nat)
    requires Inv(norm, t, now)
    ensures BatchInv(norm, Begin(norm, t, src), src, now)
  {
    var rows := ActiveRows(t, src.org, src.container, t.nextId);
    var index := IndexByContent(norm, rows);
    ActiveRowsExact(t, src.org, src.container, t.nextId);
    IndexCovers(norm, rows);
    forall id | IsActive(t, src.org, src.container, id)
      ensures norm(t.memories[id].content) in index && index[norm(t.memories[id].content)] == id
    {
      assert (id, t.memories[id].content) in rows;
      var key := norm(t.memories[id].content);
      var row :| row in rows && row.0 == index[key] && norm(row.1) == key;
      assert IsActive(t, src.org, src.container, row.0);
    }
  }

  /** What inserting and linking one row does to the tables. */
  ghost predicate InsertEffect(t: Tables, r: Tables, src: Source, m: Memory, parents: seq<Resolved>) {
    && r.nextId == t.nextId + 1
    && r.memories.Keys == t.memories.Keys + {t.nextId} && r.active.Keys == t.active.Keys + {t.nextId}
    && r.memories[t.nextId] == m && r.active[t.nextId]
    && (forall e :: e in r.relations <==> e in t.relations || LinkedBy(parents, t.nextId, e))
    && (forall id | id in t.memories ::
          r.memories[id] == if UpdatedBy(parents, id) then Demoted(t.memories[id]) else t.memories[id])
    && (forall id | id in t.active :: r.active[id] == (t.active[id] && !UpdatedBy(parents, id)))
  }

  ghost predicate ParentsOk(t: Tables, src: Source, parents: seq<Resolved>) {
    forall i | 0 <= i < |parents| ::
      && InScope(t, src.org, src.container, parents[i].id)
      && parents[i].root == t.memories[parents[i].id].root && parents[i].version == t.memories[parents[i].id].version
  }

  lemma InsertHasEffect(norm: Normalizer, b: Batch, src: Source, p: Proposal, now: nat)
    requires RowsOk(b.tables)
    ensures var parents := ResolveParents(b.tables, src, p.parents, b.temporary);
            && ParentsOk(b.tables, src, parents)
            && InsertEffect(b.tables, Insert(norm, b, src, p, now).tables, src, NewMemory(src, p, parents, now),
                            parents)
  {
    var t := b.tables;
    var parents := ResolveParents(t, src, p.parents, b.temporary);
    var u := Inserted(t, src, NewMemory(src, p, parents, now));
    ResolvedInScope(t, src, p.parents, b.temporary);
    forall i | 0 <= i < |parents| ensures InScope(t, src.org, src.container, parents[i].id)
      && parents[i].root == t.memories[parents[i].id].root && parents[i].version == t.memories[parents[i].id].version
    {
      assert parents[i] in parents;
    }
    assert !UpdatedBy(parents, t.nextId);
    LinkEffect(u, t.nextId, parents);
  }

  lemma InsertKeepsEdges(t: Tables, r: Tables, src: Source, m: Memory, parents: seq<Resolved>)
    requires RowsOk(t) && EdgesOk(t) && ParentsOk(t, src, parents) && InsertEffect(t, r, src, m, parents)
    requires m.org == src.org && m.container == src.container
    ensures RowsOk(r) && EdgesOk(r)
  {
    forall e | e in r.relations
      ensures e.parent in r.memories && e.child in r.memories && e.parent < e.child
              && SameScope(r.memories[e.parent], r.memories[e.child])
    {
      if e !in t.relations {
        assert LinkedBy(parents, t.nextId, e);
      }
    }
  }

  ghost predicate KeepsLineages(t: Tables, r: Tables) {
    && t.memories.Keys <= r.memories.Keys && t.relations <= r.relations
    && forall k | k in t.memories ::
         var a, b := t.memories[k], r.memories[k];
         SameScope(a, b) && a.parent == b.parent && a.root == b.root && a.version == b.version
  }

  /** Flag changes, new rows and new relations leave the lineage of the old rows alone. */
  lemma LineageFrame(t: Tables, r: Tables, id: Id)
    requires id in t.memories && LineageRow(t, id) && KeepsLineages(t, r)
    ensures LineageRow(r, id)
  {
  }

  lemma InsertKeepsLineages(t: Tables, r: Tables, src: Source, m: Memory, parents: seq<Resolved>)
    requires RowsOk(t) && InsertEffect(t, r, src, m, parents)
    ensures KeepsLineages(t, r)
  {
  }

  lemma InsertKeepsLineage(t: Tables, r: Tables, src: Source, p: Proposal, parents: seq<Resolved>, now: nat)
    requires RowsOk(t) && LineageOk(t) && ParentsOk(t, src, parents)
    requires InsertEffect(t, r, src, NewMemory(src, p, parents, now), parents)
    ensures LineageOk(r)
  {
    InsertKeepsLineages(t, r, src, NewMemory(src, p, parents, now), parents);
    forall k | k in r.memories ensures LineageRow(r, k) {
      if k == t.nextId {
        NewRowLineage(t, r, src, p, parents, now);
      } else {
        LineageFrame(t, r, k);
      }
    }
  }

  lemma NewRowLineage(t: Tables, r: Tables, src: Source, p: Proposal, parents: seq<Resolved>, now: nat)
    requires RowsOk(t) && ParentsOk(t, src, parents) && KeepsLineages(t, r)
    requires t.nextId in r.memories && r.memories[t.nextId] == NewMemory(src, p, parents, now)
    requires forall e | LinkedBy(parents, t.nextId, e) :: e in r.relations
    ensures LineageRow(r, t.nextId)
  {
    if parents != [] {
      var e := Edge(parents[0].id, t.nextId, parents[0].relation);
      assert LinkedBy(parents, t.nextId, e);
      assert e.relation == Updates || e.relation == Extends || e.relation == Derives;
    }
  }

  lemma InsertKeepsFlags(t: Tables, r: Tables, src: Source, m: Memory, parents: seq<Resolved>)
    requires RowsOk(t) && EdgesOk(t) && FlagsOk(t) && ParentsOk(t, src, parents) && RowsOk(r)
    requires m.isLatest && !m.isForgotten
    requires InsertEffect(t, r, src, m, parents)
    ensures FlagsOk(r)
  {
    forall k | k in r.memories ensures FlagsRow(r, k) {
      InsertUpdated(t, r, parents, t.nextId, k);
      if k == t.nextId {
        assert !Updated(t, k) && !UpdatedBy(parents, k);
      } else {
        assert FlagsRow(t, k);
      }
    }
  }

  /** Rows active after an insertion were active before, except the new one. */
  lemma InsertActive(t: Tables, r: Tables, src: Source, m: Memory, parents: seq<Resolved>, org: string,
                     container: string, id: Id)
    requires RowsOk(t) && InsertEffect(t, r, src, m, parents)
    requires IsActive(r, org, container, id) && id != t.nextId
    ensures IsActive(t, org, container, id) && r.memories[id].content == t.memories[id].content
  {
  }

  lemma InsertKeepsUnique(norm: Normalizer, b: Batch, r: Batch, src: Source, m: Memory, parents: seq<Resolved>)
    requires RowsOk(b.tables) && UniqueContent(norm, b.tables) && Indexed(norm, b, src)
    requires InsertEffect(b.tables, r.tables, src, m, parents)
    requires m.org == src.org && m.container == src.container && norm(m.content) !in b.exact
    requires r.exact == b.exact[norm(m.content) := b.tables.nextId]
    ensures UniqueContent(norm, r.tables) && Indexed(norm, r, src)
  {
    var t, n := b.tables, b.tables.nextId;
    forall org, container, k | IsActive(r.tables, org, container, k) && k != n
      ensures IsActive(t, org, container, k) && r.tables.memories[k].content == t.memories[k].content
    {
      InsertActive(t, r.tables, src, m, parents, org, container, k);
    }
  }

  lemma InsertKeepsForgotten(t: Tables, r: Tables, src: Source, m: Memory, parents: seq<Resolved>, now: nat)
    requires RowsOk(t) && ForgottenExpired(t, now) && !m.isForgotten && InsertEffect(t, r, src, m, parents)
    ensures ForgottenExpired(r, now)
  {
  }

  lemma InsertKeepsInv(norm: Normalizer, b: Batch, src: Source, p: Proposal, now: nat)
    requires BatchInv(norm, b, src, now) && norm(p.content) !in b.exact
    ensures BatchInv(norm, Insert(norm, b, src, p, now), src, now)
  {
    var parents := ResolveParents(b.tables, src, p.parents, b.temporary);
    var m := NewMemory(src, p, parents, now);
    var r := Insert(norm, b, src, p, now);
    InsertHasEffect(norm, b, src, p, now);
    InsertKeepsEdges(b.tables, r.tables, src, m, parents);
    InsertKeepsLineage(b.tables, r.tables, src, p, parents, now);
    InsertKeepsFlags(b.tables, r.tables, src, m, parents);
    InsertKeepsForgotten(b.tables, r.tables, src, m, parents, now);
    InsertKeepsUnique(norm, b, r, src, m, parents);
  }

  /** The outgoing updates of a row after an insertion. */
  lemma InsertUpdated(t: Tables, r: Tables, parents: seq<Resolved>, id: Id, k: Id)
    requires forall e :: e in r.relations <==> e in t.relations || LinkedBy(parents, id, e)
    ensures Updated(r, k) <==> Updated(t, k) || UpdatedBy(parents, k)
  {
    if Updated(t, k) {
      var child :| Edge(k, child, Updates) in t.relations;
      assert Edge(k, child, Updates) in r.relations;
    }
    if UpdatedBy(parents, k) {
      var i :| 0 <= i < |parents| && parents[i].id == k && parents[i].relation == Updates;
      assert LinkedBy(parents, id, Edge(k, id, Updates));
    }
    if Updated(r, k) {
      var child :| Edge(k, child, Updates) in r.relations;
      if Edge(k, child, Updates) !in t.relations {
        assert LinkedBy(parents, id, Edge(k, child, Updates));
      }
    }
  }

  lemma MergeKeepsInv(norm: Normalizer, b: Batch, src: Source, p: Proposal, existing: Id, now: nat)
    requires BatchInv(norm, b, src, now)
    ensures BatchInv(norm, Merge(b, src, p, existing), src, now)
  {
    SourcesIrrelevant(norm, b.tables, Merge(b, src, p, existing).tables, now);
  }

  /** The source rows take no part in the invariant. */
  lemma SourcesIrrelevant(norm: Normalizer, t: Tables, r: Tables, now: nat)
    requires Inv(norm, t, now) && r == t.(sources := r.sources)
    ensures Inv(norm, r, now)
  {
    forall id | id in r.memories ensures LineageRow(r, id) && FlagsRow(r, id) {
      assert LineageRow(t, id) && FlagsRow(t, id);
      assert Updated(t, id) <==> Updated(r, id);
    }
    assert forall org, container, id :: IsActive(r, org, container, id) == IsActive(t, org, container, id);
  }

  lemma {:induction false} AdmitAllKeepsInv(norm: Normalizer, b: Batch, src: Source, ps: seq<Proposal>, now: nat)
    requires BatchInv(norm, b, src, now)
    ensures BatchInv(norm, AdmitAll(norm, b, src, ps, now), src, now)
  {
    if ps != [] {
      var before, p := AdmitAll(norm, b, src, ps[..|ps| - 1], now), ps[|ps| - 1];
      AdmitAllKeepsInv(norm, b, src, ps[..|ps| - 1], now);
      if norm(p.content) in before.exact {
        MergeKeepsInv(norm, before, src, p, before.exact[norm(p.content)], now);
      } else {
        InsertKeepsInv(norm, before, src, p, now);
      }
    }
  }

  // ---- runs ---------------------------------------------------------------------------------------

  lemma ForgetKeepsFlags(t: Tables, id: Id, reason: Option<string>, now: nat)
    requires RowsOk(t) && FlagsOk(t) && id in t.memories
    ensures FlagsOk(ForgetRow(t, id, reason, now))
  {
    var r := ForgetRow(t, id, reason, now);
    forall k | k in r.memories ensures FlagsRow(r, k) {
      assert FlagsRow(t, k);
      assert Updated(t, k) <==> Updated(r, k);
    }
  }

  lemma ForgetKeepsUnique(norm: Normalizer, t: Tables, id: Id, reason: Option<string>, now: nat)
    requires UniqueContent(norm, t)
    ensures UniqueContent(norm, ForgetRow(t, id, reason, now))
  {
    var r := ForgetRow(t, id, reason, now);
    forall org, container, k | IsActive(r, org, container, k)
      ensures IsActive(t, org, container, k) && r.memories[k].content == t.memories[k].content
    {
    }
  }

  lemma ForgetKeepsLineage(t: Tables, id: Id, reason: Option<string>, now: nat)
    requires LineageOk(t)
    ensures LineageOk(ForgetRow(t, id, reason, now))
  {
    var r := ForgetRow(t, id, reason, now);
    forall k | k in r.memories ensures LineageRow(r, k) {
      LineageFrame(t, r, k);
    }
  }

  lemma ForgetKeepsInv(norm: Normalizer, t: Tables, id: Id, reason: Option<string>, now: nat)
    requires Inv(norm, t, now) && id in t.memories
    ensures Inv(norm, ForgetRow(t, id, reason, now), now)
  {
    ForgetKeepsFlags(t, id, reason, now);
    ForgetKeepsLineage(t, id, reason, now);
    ForgetKeepsUnique(norm, t, id, reason, now);
  }

  lemma {:induction false} FindContentInScope(t: Tables, org: string, container: string, content: string, n: nat,
                                              now: nat)
    ensures match FindContent(t, org, container, content, n, now)
            case None =>
              forall id: Id | id < n :: !(Forgettable(t, org, container, id, now) && t.memories[id].content == content)
            case Some(id) =>
              && id < n && Forgettable(t, org, container, id, now) && t.memories[id].content == content
              && forall older: Id | older < id ::
                   !(Forgettable(t, org, container, older, now) && t.memories[older].content == content)
  {
    if n > 0 {
      FindContentInScope(t, org, container, content, n - 1, now);
    }
  }

  /** The commands' times never run backwards and never pass `now`. */
  ghost predicate Timed(cs: seq<Command>, now: nat) {
    && (forall i, j | 0 <= i < j < |cs| :: cs[i].at <= cs[j].at)
    && (forall i | 0 <= i < |cs| :: cs[i].at <= now)
  }

  lemma LaterKeepsInv(norm: Normalizer, t: Tables, now: nat, later: nat)
    requires Inv(norm, t, now) && now <= later
    ensures Inv(norm, t, later)
  {
  }

  lemma ApplyKeepsInv(norm: Normalizer, t: Tables, c: Command)
    requires Inv(norm, t, c.at)
    ensures Inv(norm, Apply(norm, t, c), c.at)
  {
    match c
    case Publish(src, ps, at) =>
      BeginIsIndexed(norm, t, src, at);
      AdmitAllKeepsInv(norm, Begin(norm, t, src), src, ps, at);
    case Forget(org, id, content, container, reason, at) =>
      var found := FindForgettable(t, org, container, id, content, at);
      if content.Some? { FindContentInScope(t, org, container, content.value, t.nextId, at); }
      if found.Some? { ForgetKeepsInv(norm, t, found.value, reason, at); }
    case Unlink(doc, at) =>
      SourcesIrrelevant(norm, t, DropSource(t, doc), at);
  }

  /** Every reachable state of the memory tables satisfies the invariant. */
  lemma {:induction false} RunKeepsInv(norm: Normalizer, cs: seq<Command>, now: nat)
    requires Timed(cs, now)
    ensures Inv(norm, ApplyAll(norm, EmptyTables, cs), now)
  {
    if cs != [] {
      var front, c := cs[..|cs| - 1], cs[|cs| - 1];
      forall i | 0 <= i < |front| ensures front[i].at <= c.at {
        assert cs[i].at <= cs[|cs| - 1].at;
      }
      assert Timed(front, c.at) by {
        forall i, j | 0 <= i < j < |front| ensures front[i].at <= front[j].at { assert cs[i].at <= cs[j].at; }
      }
      RunKeepsInv(norm, front, c.at);
      ApplyKeepsInv(norm, ApplyAll(norm, EmptyTables, front), c);
      LaterKeepsInv(norm, ApplyAll(norm, EmptyTables, cs), c.at, now);
    }
  }

  // ---- lineage ------------------------------------------------------------------------------------

  /** The row reached by following `parent` k times. */
  function Ancestor(t: Tables, id: Id, k: nat): Option<Id>
    decreases k
  {
    if k == 0 then Some(id)
    else if id in t.memories && t.memories[id].parent.Some? then Ancestor(t, t.memories[id].parent.value, k - 1)
    else None
  }

  /** Following parents version - 1 times ends exactly at the root: the row itself, or root_memory_id. */
  lemma {:induction false} LineageReachesRoot(t: Tables, id: Id)
    requires LineageOk(t) && id in t.memories
    ensures var m := t.memories[id];
            var origin := if m.root.Some? then m.root.value else id;
            && m.version >= 1
            && (m.root.None? <==> m.version == 1)
            && Ancestor(t, id, m.version - 1) == Some(origin)
            && origin in t.memories && t.memories[origin].parent.None? && SameScope(t.memories[origin], m)
    decreases id
  {
    assert LineageRow(t, id);
    if t.memories[id].parent.Some? {
      LineageReachesRoot(t, t.memories[id].parent.value);
    }
  }

  ghost predicate IsPath(t: Tables, path: seq<Id>) {
    forall i, j | 0 <= i && j == i + 1 && j < |path| :: Related(t, path[i], path[j])
  }

  /** Every path through the relation graph strictly ascends, so the graph has no cycle. */
  lemma {:induction false} RelationsAcyclic(t: Tables, path: seq<Id>)
    requires EdgesOk(t) && IsPath(t, path) && |path| >= 2
    ensures path[0] < path[|path| - 1]
  {
    var n := |path| - 1;
    assert Related(t, path[n - 1], path[n]);
    if n > 1 {
      RelationsAcyclic(t, path[..n]);
    }
  }
}
