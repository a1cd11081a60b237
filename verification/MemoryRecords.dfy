/**
 What a batch of memories writes, said in terms of its proposals and the tables before it: every field of a new row,
 every relation, and what becomes of the rows that were there.
 */
module MemoryRecords {
  import opened Options
  import opened Memories
  import opened MemoryInvariants
  import opened MemoryReplay

  // ---- what a proposal asks for -------------------------------------------------------------------

  /** The parent, its temporary id replaced, is an earlier row of the scope or a new row of the batch. */
  predicate Found(t: Tables, src: Source, plan: Plan, parent: Parent) {
    var id := Target(parent, plan.temporary);
    InScope(t, src.org, src.container, id) || t.nextId <= id < plan.nextId
  }

  /** The k-th proposed parent is the first that is found. */
  ghost predicate FirstFound(t: Tables, src: Source, plan: Plan, parents: seq<Parent>, k: nat) {
    k < |parents| && Found(t, src, plan, parents[k]) && forall i | 0 <= i < k :: !Found(t, src, plan, parents[i])
  }

  /** The proposal asks for this relation to a row that is found. */
  ghost predicate Asks(t: Tables, src: Source, plan: Plan, p: Proposal, id: Id, relation: Relation) {
    exists q :: q in p.parents && Found(t, src, plan, q) && Target(q, plan.temporary) == id && q.relation == relation
  }

  /** The fields of the new row for a proposal, and whether a proposal of the batch updates it. */
  ghost predicate FieldsFor(t: Tables, src: Source, plan: Plan, p: Proposal, now: nat, m: Memory, updated: bool) {
    && m.org == src.org && m.container == src.container && m.content == p.content && !m.isForgotten
    && (m.isLatest <==> !updated) && (m.isStatic <==> p.isStatic && !updated)
    && (m.isInferred <==> p.isInferred || exists id :: Asks(t, src, plan, p, id, Derives))
    && (forall at: nat :: m.forgetAfter == Some(at) <==> p.forgetAfter == Some(at) && at > now)
    && m.forgetReason == p.forgetReason
  }

  /** Its primary parent is the first one found. */
  ghost predicate ParentFor(t: Tables, src: Source, plan: Plan, p: Proposal, m: Memory) {
    && (forall k: nat | FirstFound(t, src, plan, p.parents, k) ::
          m.parent == Some(Target(p.parents[k], plan.temporary)))
    && ((forall q | q in p.parents :: !Found(t, src, plan, q)) ==> m.parent.None?)
  }

  /** It is related to exactly the rows the proposal asks for, each by exactly the relations asked for. */
  ghost predicate EdgesFor(t: Tables, src: Source, plan: Plan, p: Proposal, r: Tables) {
    forall id, relation ::
      Edge(id, plan.nextId, relation) in r.relations <==> Asks(t, src, plan, p, id, relation)
  }

  // ---- resolving parents --------------------------------------------------------------------------

  ghost predicate Resolves(rs: seq<Resolved>, id: Id, relation: Relation) {
    exists i :: 0 <= i < |rs| && rs[i].id == id && rs[i].relation == relation
  }

  lemma ResolvesPush(rs: seq<Resolved>, last: Resolved, id: Id, relation: Relation)
    ensures Resolves(rs + [last], id, relation)
            <==> Resolves(rs, id, relation) || (last.id == id && last.relation == relation)
  {
    var all := rs + [last];
    if Resolves(rs, id, relation) {
      var i :| 0 <= i < |rs| && rs[i].id == id && rs[i].relation == relation;
      assert all[i] == rs[i];
    }
    if last.id == id && last.relation == relation { assert all[|rs|] == last; }
  }

  ghost predicate Proposed(u: Tables, src: Source, parents: seq<Parent>, temporary: map<Id, Id>, id: Id,
                           relation: Relation) {
    exists q :: q in parents && InScope(u, src.org, src.container, Target(q, temporary))
                && Target(q, temporary) == id && q.relation == relation
  }

  lemma ProposedPush(u: Tables, src: Source, parents: seq<Parent>, last: Parent, temporary: map<Id, Id>, id: Id,
                     relation: Relation)
    ensures Proposed(u, src, parents + [last], temporary, id, relation)
            <==> Proposed(u, src, parents, temporary, id, relation)
                 || (InScope(u, src.org, src.container, id) && Target(last, temporary) == id
                     && last.relation == relation)
  {
    assert forall q :: q in parents + [last] <==> q in parents || q == last;
  }

  lemma {:induction false} ResolvedExactly(u: Tables, src: Source, parents: seq<Parent>, temporary: map<Id, Id>, id: Id,
                                           relation: Relation)
    ensures Resolves(ResolveParents(u, src, parents, temporary), id, relation)
            <==> Proposed(u, src, parents, temporary, id, relation)
  {
    if parents != [] {
      var front, last := parents[..|parents| - 1], parents[|parents| - 1];
      ResolvedExactly(u, src, front, temporary, id, relation);
      assert parents == front + [last];
      ProposedPush(u, src, front, last, temporary, id, relation);
      if InScope(u, src.org, src.container, Target(last, temporary)) {
        var row := u.memories[Target(last, temporary)];
        ResolvesPush(ResolveParents(u, src, front, temporary),
                     Resolved(Target(last, temporary), last.relation, row.root, row.version), id, relation);
      }
    }
  }

  /** The first resolved parent is the first proposed one in scope. */
  lemma {:induction false} ResolvedFirst(u: Tables, src: Source, parents: seq<Parent>, temporary: map<Id, Id>, k: nat)
    requires k <= |parents|
    requires forall i | 0 <= i < k :: !InScope(u, src.org, src.container, Target(parents[i], temporary))
    requires k < |parents| ==> InScope(u, src.org, src.container, Target(parents[k], temporary))
    ensures var rs := ResolveParents(u, src, parents, temporary);
            if k == |parents| then rs == [] else rs != [] && rs[0].id == Target(parents[k], temporary)
  {
    if parents != [] {
      ResolvedFirst(u, src, parents[..|parents| - 1], temporary, if k == |parents| then k - 1 else k);
    }
  }

  // ---- the row of the last proposal ---------------------------------------------------------------

  ghost predicate IsNew(norm: Normalizer, t: Tables, src: Source, ps: seq<Proposal>, j: nat) {
    j < |ps| && norm(ps[j].content) !in PlanOf(norm, t, src, ps[..j]).exact
  }

  /** The plan agrees with a batch on which rows are in scope. */
  ghost predicate KnowsScope(t: Tables, src: Source, plan: Plan, u: Tables) {
    forall id: Id ::
      InScope(u, src.org, src.container, id) <==> InScope(t, src.org, src.container, id) || t.nextId <= id < plan.nextId
  }

  lemma ResolvedAsAsked(t: Tables, src: Source, plan: Plan, p: Proposal, u: Tables, id: Id, relation: Relation)
    requires KnowsScope(t, src, plan, u)
    ensures Resolves(ResolveParents(u, src, p.parents, plan.temporary), id, relation)
            <==> Asks(t, src, plan, p, id, relation)
  {
    ResolvedExactly(u, src, p.parents, plan.temporary, id, relation);
  }

  lemma FoundIsInScope(t: Tables, src: Source, plan: Plan, u: Tables, parent: Parent)
    requires KnowsScope(t, src, plan, u)
    ensures Found(t, src, plan, parent) <==> InScope(u, src.org, src.container, Target(parent, plan.temporary))
  {
  }

  lemma ParentAtInsertion(t: Tables, src: Source, plan: Plan, p: Proposal, now: nat, u: Tables)
    requires KnowsScope(t, src, plan, u)
    ensures ParentFor(t, src, plan, p, NewMemory(src, p, ResolveParents(u, src, p.parents, plan.temporary), now))
  {
    var parents := ResolveParents(u, src, p.parents, plan.temporary);
    forall i | 0 <= i < |p.parents|
      ensures Found(t, src, plan, p.parents[i])
              <==> InScope(u, src.org, src.container, Target(p.parents[i], plan.temporary))
    {
      FoundIsInScope(t, src, plan, u, p.parents[i]);
    }
    forall k: nat | FirstFound(t, src, plan, p.parents, k)
      ensures parents != [] && parents[0].id == Target(p.parents[k], plan.temporary)
    {
      ResolvedFirst(u, src, p.parents, plan.temporary, k);
    }
    if forall q | q in p.parents :: !Found(t, src, plan, q) {
      assert forall i | 0 <= i < |p.parents| :: p.parents[i] in p.parents;
      ResolvedFirst(u, src, p.parents, plan.temporary, |p.parents|);
    }
  }

  lemma FieldsAtInsertion(t: Tables, src: Source, plan: Plan, p: Proposal, now: nat, u: Tables)
    requires KnowsScope(t, src, plan, u)
    ensures var parents := ResolveParents(u, src, p.parents, plan.temporary);
            && FieldsFor(t, src, plan, p, now, NewMemory(src, p, parents, now), false)
            && (forall id, relation :: Resolves(parents, id, relation) <==> Asks(t, src, plan, p, id, relation))
  {
    var parents := ResolveParents(u, src, p.parents, plan.temporary);
    forall id, relation ensures Resolves(parents, id, relation) <==> Asks(t, src, plan, p, id, relation) {
      ResolvedAsAsked(t, src, plan, p, u, id, relation);
    }
    if i :| 0 <= i < |parents| && parents[i].relation == Derives { assert Resolves(parents, parents[i].id, Derives); }
  }

  // ---- the whole batch ----------------------------------------------------------------------------

  /** A row that was there stays, except that an update within its scope ends its being latest and static. */
  ghost predicate OldRow(norm: Normalizer, t: Tables, src: Source, ps: seq<Proposal>, r: Tables, id: Id)
    requires id in t.memories
  {
    && id in r.memories
    && r.memories[id] == if InScope(t, src.org, src.container, id) && UpdatedInBatch(norm, t, src, ps, id)
                         then Demoted(t.memories[id]) else t.memories[id]
  }

  /** What the tables say about the proposal with a new content. */
  ghost predicate NewRow(norm: Normalizer, t: Tables, src: Source, ps: seq<Proposal>, r: Tables, now: nat, j: nat)
    requires j < |ps|
  {
    var plan := PlanOf(norm, t, src, ps[..j]);
    && plan.nextId in r.memories
    && FieldsFor(t, src, plan, ps[j], now, r.memories[plan.nextId], UpdatedInBatch(norm, t, src, ps, plan.nextId))
    && ParentFor(t, src, plan, ps[j], r.memories[plan.nextId])
    && EdgesFor(t, src, plan, ps[j], r)
  }

  ghost predicate BatchRows(norm: Normalizer, t: Tables, src: Source, ps: seq<Proposal>, r: Tables, now: nat) {
    && (forall id | id in t.memories :: OldRow(norm, t, src, ps, r, id))
    && (forall j: nat | IsNew(norm, t, src, ps, j) :: NewRow(norm, t, src, ps, r, now, j))
    && (forall e: Edge | e.child < t.nextId :: e in r.relations <==> e in t.relations)
    && KnowsScope(t, src, PlanOf(norm, t, src, ps), r)
  }

  /** One more proposal, merged: nothing about the rows changes. */
  lemma MergedRows(norm: Normalizer, t: Tables, src: Source, ps: seq<Proposal>, u: Tables, r: Tables, now: nat)
    requires RowsOk(t) && ps != [] && BatchRows(norm, t, src, ps[..|ps| - 1], u, now)
    requires !IsNew(norm, t, src, ps, |ps| - 1) && r.memories == u.memories && r.relations == u.relations
    ensures BatchRows(norm, t, src, ps, r, now)
  {
    var front := ps[..|ps| - 1];
    forall id | id in t.memories ensures OldRow(norm, t, src, ps, r, id) {
      assert OldRow(norm, t, src, front, u, id);
      UpdatedPush(norm, t, src, ps, id);
    }
    forall j: nat | IsNew(norm, t, src, ps, j) ensures NewRow(norm, t, src, ps, r, now, j) {
      assert front[..j] == ps[..j] && front[j] == ps[j];
      assert IsNew(norm, t, src, front, j) && NewRow(norm, t, src, front, u, now, j);
      UpdatedPush(norm, t, src, ps, PlanOf(norm, t, src, ps[..j]).nextId);
    }
    assert KnowsScope(t, src, PlanOf(norm, t, src, front), u);
    forall id: Id
      ensures InScope(r, src.org, src.container, id)
              <==> InScope(t, src.org, src.container, id) || t.nextId <= id < PlanOf(norm, t, src, ps).nextId
    {
      assert InScope(u, src.org, src.container, id) <==> InScope(r, src.org, src.container, id);
    }
  }

  /** What inserting the last proposal does, seen from the plan. */
  ghost predicate LastInserted(t: Tables, src: Source, plan: Plan, p: Proposal, u: Tables, r: Tables, now: nat) {
    && r.memories.Keys == u.memories.Keys + {plan.nextId}
    && FieldsFor(t, src, plan, p, now, r.memories[plan.nextId], false)
    && ParentFor(t, src, plan, p, r.memories[plan.nextId])
    && (forall e: Edge :: e in r.relations <==>
          e in u.relations || (e.child == plan.nextId && Asks(t, src, plan, p, e.parent, e.relation)))
    && (forall e | e in u.relations :: e.child < plan.nextId)
    && (forall id | id in u.memories ::
          r.memories[id] == if Asks(t, src, plan, p, id, Updates) then Demoted(u.memories[id]) else u.memories[id])
  }

  lemma LinkedIsResolved(parents: seq<Resolved>, child: Id, e: Edge)
    ensures LinkedBy(parents, child, e) <==> e.child == child && Resolves(parents, e.parent, e.relation)
  {
    if LinkedBy(parents, child, e) {
      var i :| 0 <= i < |parents| && e == Edge(parents[i].id, child, parents[i].relation);
      assert parents[i].id == e.parent;
    }
    if e.child == child && Resolves(parents, e.parent, e.relation) {
      var i :| 0 <= i < |parents| && parents[i].id == e.parent && parents[i].relation == e.relation;
      assert e == Edge(parents[i].id, child, parents[i].relation);
    }
  }

  lemma InsertedLast(norm: Normalizer, t: Tables, src: Source, ps: seq<Proposal>, before: Batch, now: nat)
    requires ps != [] && RowsOk(before.tables) && EdgesOk(before.tables)
    requires PlanOf(norm, t, src, ps[..|ps| - 1]) == Plan(before.exact, before.temporary, before.tables.nextId)
    requires KnowsScope(t, src, PlanOf(norm, t, src, ps[..|ps| - 1]), before.tables)
    ensures LastInserted(t, src, PlanOf(norm, t, src, ps[..|ps| - 1]), ps[|ps| - 1], before.tables,
                         Insert(norm, before, src, ps[|ps| - 1], now).tables, now)
  {
    var plan, p := PlanOf(norm, t, src, ps[..|ps| - 1]), ps[|ps| - 1];
    FieldsAtInsertion(t, src, plan, p, now, before.tables);
    ParentAtInsertion(t, src, plan, p, now, before.tables);
    InsertHasEffect(norm, before, src, p, now);
    EffectOfInsertion(t, src, plan, p, before.tables, Insert(norm, before, src, p, now).tables, now);
  }

  lemma EffectOfInsertion(t: Tables, src: Source, plan: Plan, p: Proposal, u: Tables, r: Tables, now: nat)
    requires RowsOk(u) && EdgesOk(u) && u.nextId == plan.nextId
    requires var parents := ResolveParents(u, src, p.parents, plan.temporary);
             && InsertEffect(u, r, src, NewMemory(src, p, parents, now), parents)
             && FieldsFor(t, src, plan, p, now, NewMemory(src, p, parents, now), false)
             && ParentFor(t, src, plan, p, NewMemory(src, p, parents, now))
             && (forall id, relation :: Resolves(parents, id, relation) <==> Asks(t, src, plan, p, id, relation))
    ensures LastInserted(t, src, plan, p, u, r, now)
  {
    var parents := ResolveParents(u, src, p.parents, plan.temporary);
    forall e: Edge
      ensures e in r.relations <==>
              e in u.relations || (e.child == plan.nextId && Asks(t, src, plan, p, e.parent, e.relation))
    {
      LinkedIsResolved(parents, plan.nextId, e);
    }
    forall id | id in u.memories
      ensures r.memories[id] == if Asks(t, src, plan, p, id, Updates) then Demoted(u.memories[id]) else u.memories[id]
    {
      assert UpdatedBy(parents, id) <==> Resolves(parents, id, Updates);
    }
  }

  /** Within the scope, what the last proposal updates is what it asks to update. */
  lemma AsksUpdates(norm: Normalizer, t: Tables, src: Source, ps: seq<Proposal>, u: Tables, id: Id)
    requires ps != [] && IsNew(norm, t, src, ps, |ps| - 1) && RowsOk(u)
    requires u.nextId == PlanOf(norm, t, src, ps[..|ps| - 1]).nextId
    requires KnowsScope(t, src, PlanOf(norm, t, src, ps[..|ps| - 1]), u)
    ensures Asks(t, src, PlanOf(norm, t, src, ps[..|ps| - 1]), ps[|ps| - 1], id, Updates)
            <==> InScope(u, src.org, src.container, id) && UpdatesRow(norm, t, src, ps, |ps| - 1, id)
  {
  }

  lemma OldRowLast(norm: Normalizer, t: Tables, src: Source, ps: seq<Proposal>, u: Tables, r: Tables, now: nat, id: Id)
    requires ps != [] && IsNew(norm, t, src, ps, |ps| - 1) && RowsOk(u) && id in t.memories
    requires u.nextId == PlanOf(norm, t, src, ps[..|ps| - 1]).nextId
    requires KnowsScope(t, src, PlanOf(norm, t, src, ps[..|ps| - 1]), u)
    requires OldRow(norm, t, src, ps[..|ps| - 1], u, id)
    requires LastInserted(t, src, PlanOf(norm, t, src, ps[..|ps| - 1]), ps[|ps| - 1], u, r, now)
    ensures OldRow(norm, t, src, ps, r, id)
  {
    AsksUpdates(norm, t, src, ps, u, id);
    UpdatedPush(norm, t, src, ps, id);
  }

  lemma NewRowLater(norm: Normalizer, t: Tables, src: Source, ps: seq<Proposal>, u: Tables, r: Tables, now: nat, j: nat)
    requires j + 1 < |ps| && IsNew(norm, t, src, ps, |ps| - 1) && RowsOk(u)
    requires u.nextId == PlanOf(norm, t, src, ps[..|ps| - 1]).nextId
    requires KnowsScope(t, src, PlanOf(norm, t, src, ps[..|ps| - 1]), u)
    requires NewRow(norm, t, src, ps[..|ps| - 1], u, now, j)
    requires LastInserted(t, src, PlanOf(norm, t, src, ps[..|ps| - 1]), ps[|ps| - 1], u, r, now)
    ensures NewRow(norm, t, src, ps, r, now, j)
  {
    assert ps[..|ps| - 1][..j] == ps[..j];
    var id := PlanOf(norm, t, src, ps[..j]).nextId;
    AsksUpdates(norm, t, src, ps, u, id);
    UpdatedPush(norm, t, src, ps, id);
  }

  lemma NewRowNow(norm: Normalizer, t: Tables, src: Source, ps: seq<Proposal>, u: Tables, r: Tables, now: nat)
    requires ps != [] && IsNew(norm, t, src, ps, |ps| - 1)
    requires LastInserted(t, src, PlanOf(norm, t, src, ps[..|ps| - 1]), ps[|ps| - 1], u, r, now)
    ensures NewRow(norm, t, src, ps, r, now, |ps| - 1)
  {
    var id := PlanOf(norm, t, src, ps[..|ps| - 1]).nextId;
    UpdatedPush(norm, t, src, ps, id);
    NewRowIsNotUpdated(norm, t, src, ps[..|ps| - 1], id);
  }

  /** One more proposal with a new content. */
  lemma InsertedRows(norm: Normalizer, t: Tables, src: Source, ps: seq<Proposal>, u: Tables, r: Tables, now: nat)
    requires ps != [] && IsNew(norm, t, src, ps, |ps| - 1) && RowsOk(t) && RowsOk(u)
    requires u.nextId == PlanOf(norm, t, src, ps[..|ps| - 1]).nextId
    requires BatchRows(norm, t, src, ps[..|ps| - 1], u, now)
    requires LastInserted(t, src, PlanOf(norm, t, src, ps[..|ps| - 1]), ps[|ps| - 1], u, r, now)
    ensures BatchRows(norm, t, src, ps, r, now)
  {
    var front := ps[..|ps| - 1];
    forall id | id in t.memories ensures OldRow(norm, t, src, ps, r, id) {
      OldRowLast(norm, t, src, ps, u, r, now, id);
    }
    forall j: nat | IsNew(norm, t, src, ps, j) ensures NewRow(norm, t, src, ps, r, now, j) {
      if j == |ps| - 1 {
        NewRowNow(norm, t, src, ps, u, r, now);
      } else {
        assert front[..j] == ps[..j] && front[j] == ps[j];
        assert IsNew(norm, t, src, front, j);
        NewRowLater(norm, t, src, ps, u, r, now, j);
      }
    }
    PlanGrows(norm, t, src, front, 0);
    ScopeGrows(norm, t, src, ps, u, r, now);
  }

  lemma ScopeGrows(norm: Normalizer, t: Tables, src: Source, ps: seq<Proposal>, u: Tables, r: Tables, now: nat)
    requires ps != [] && IsNew(norm, t, src, ps, |ps| - 1) && RowsOk(t)
    requires t.nextId <= PlanOf(norm, t, src, ps[..|ps| - 1]).nextId
    requires KnowsScope(t, src, PlanOf(norm, t, src, ps[..|ps| - 1]), u)
    requires LastInserted(t, src, PlanOf(norm, t, src, ps[..|ps| - 1]), ps[|ps| - 1], u, r, now)
    ensures KnowsScope(t, src, PlanOf(norm, t, src, ps), r)
  {
    var plan := PlanOf(norm, t, src, ps[..|ps| - 1]);
    forall id: Id
      ensures InScope(r, src.org, src.container, id)
              <==> InScope(t, src.org, src.container, id) || t.nextId <= id < plan.nextId + 1
    {
      assert InScope(r, src.org, src.container, id)
          <==> InScope(u, src.org, src.container, id) || id == plan.nextId;
    }
  }

  /**
   What a batch writes: each proposal with a new content gets a row with exactly these fields, parent and relations, in
   terms of the proposals and the tables before; the other rows and relations stay, except for the rows updated.
   */
  lemma {:induction false} BatchWrites(norm: Normalizer, t: Tables, src: Source, ps: seq<Proposal>, now: nat)
    requires Inv(norm, t, now)
    ensures BatchRows(norm, t, src, ps, AdmitAll(norm, Begin(norm, t, src), src, ps, now).tables, now)
  {
    if ps != [] {
      var front, p := ps[..|ps| - 1], ps[|ps| - 1];
      var before := AdmitAll(norm, Begin(norm, t, src), src, front, now);
      BatchWrites(norm, t, src, front, now);
      PlanIsExact(norm, t, src, front, now);
      BeginIsIndexed(norm, t, src, now);
      AdmitAllKeepsInv(norm, Begin(norm, t, src), src, front, now);
      if IsNew(norm, t, src, ps, |ps| - 1) {
        InsertedLast(norm, t, src, ps, before, now);
        InsertedRows(norm, t, src, ps, before.tables, Insert(norm, before, src, p, now).tables, now);
      } else {
        MergedRows(norm, t, src, ps, before.tables, Admit(norm, before, src, p, now).tables, now);
      }
    }
  }

  // ---- the answers --------------------------------------------------------------------------------

  lemma {:induction false} PlannedStays(norm: Normalizer, t: Tables, src: Source, ps: seq<Proposal>, j: nat,
                                        key: string)
    requires j <= |ps| && key in PlanOf(norm, t, src, ps[..j]).exact
    ensures var exact := PlanOf(norm, t, src, ps).exact;
            key in exact && exact[key] == PlanOf(norm, t, src, ps[..j]).exact[key]
  {
    if j == |ps| {
      assert ps[..j] == ps;
    } else {
      assert ps[..|ps| - 1][..j] == ps[..j];
      PlannedStays(norm, t, src, ps[..|ps| - 1], j, key);
    }
  }

  /** The row planned for a proposal. */
  function PlannedAnswer(norm: Normalizer, t: Tables, src: Source, ps: seq<Proposal>, j: nat): Id
    requires j < |ps|
  {
    var plan, key := PlanOf(norm, t, src, ps[..j]), norm(ps[j].content);
    if key in plan.exact then plan.exact[key] else plan.nextId
  }

  lemma PlannedIsNoted(norm: Normalizer, t: Tables, src: Source, ps: seq<Proposal>, j: nat)
    requires j < |ps|
    ensures var exact, key := PlanOf(norm, t, src, ps).exact, norm(ps[j].content);
            key in exact && exact[key] == PlannedAnswer(norm, t, src, ps, j)
  {
    assert ps[..j + 1][..j] == ps[..j];
    PlannedStays(norm, t, src, ps, j + 1, norm(ps[j].content));
  }

  /** A proposal with a new content is answered by its own new row, any other by the row that has its content. */
  lemma AnswersAsPlanned(norm: Normalizer, t: Tables, src: Source, ps: seq<Proposal>, now: nat, j: nat)
    requires j < |ps| && RowsOk(t)
    ensures var r, plan := AdmitAll(norm, Begin(norm, t, src), src, ps, now), PlanOf(norm, t, src, ps[..j]);
            && |r.records| == |ps|
            && (IsNew(norm, t, src, ps, j) ==> r.records[j] == plan.nextId && plan.nextId !in t.memories)
            && (!IsNew(norm, t, src, ps, j) ==> r.records[j] == plan.exact[norm(ps[j].content)])
  {
    RecordsAreExact(norm, Begin(norm, t, src), src, ps, now);
    PlanIsExact(norm, t, src, ps, now);
    PlannedIsNoted(norm, t, src, ps, j);
    PlanGrows(norm, t, src, ps[..j], 0);
  }

  /** The batch's document becomes a source of every answering row, and of no other. */
  lemma {:induction false} SourcesAreAnswers(norm: Normalizer, b: Batch, src: Source, ps: seq<Proposal>, now: nat)
    requires b.records == []
    ensures var r := AdmitAll(norm, b, src, ps, now);
            forall s :: s in r.tables.sources <==> s in b.tables.sources || (s.0 in r.records && s.1 == src.doc)
  {
    if ps != [] {
      var front, p := ps[..|ps| - 1], ps[|ps| - 1];
      SourcesAreAnswers(norm, b, src, front, now);
      var before := AdmitAll(norm, b, src, front, now);
      var parents := ResolveParents(before.tables, src, p.parents, before.temporary);
      LinkEffect(Inserted(before.tables, src, NewMemory(src, p, parents, now)), before.tables.nextId, parents);
    }
  }

  /** The row that answers a proposal with a new content, written out. */
  lemma NewMemoryIsAsProposed(norm: Normalizer, t: Tables, src: Source, ps: seq<Proposal>, now: nat, j: nat)
    requires Inv(norm, t, now) && IsNew(norm, t, src, ps, j)
    ensures var r, plan, p := AdmitAll(norm, Begin(norm, t, src), src, ps, now), PlanOf(norm, t, src, ps[..j]), ps[j];
            && |r.records| == |ps| && r.records[j] in r.tables.memories && r.records[j] !in t.memories
            && var m, updated := r.tables.memories[r.records[j]], UpdatedInBatch(norm, t, src, ps, r.records[j]);
            && m.org == src.org && m.container == src.container && m.content == p.content && !m.isForgotten
            && (m.isLatest <==> !updated) && (m.isStatic <==> p.isStatic && !updated)
            && (m.isInferred <==>
                  p.isInferred || exists q :: q in p.parents && q.relation.Derives? && Found(t, src, plan, q))
            && (forall at: nat :: m.forgetAfter == Some(at) <==> p.forgetAfter == Some(at) && at > now)
            && m.forgetReason == p.forgetReason
            && (m.parent.Some? <==> exists q :: q in p.parents && Found(t, src, plan, q))
            && (forall q | q in p.parents && Found(t, src, plan, q) ::
                  Edge(Target(q, plan.temporary), r.records[j], q.relation) in r.tables.relations)
  {
    var plan := PlanOf(norm, t, src, ps[..j]);
    BatchWrites(norm, t, src, ps, now);
    AnswersAsPlanned(norm, t, src, ps, now, j);
    var r := AdmitAll(norm, Begin(norm, t, src), src, ps, now).tables;
    assert NewRow(norm, t, src, ps, r, now, j);
    forall q | q in ps[j].parents && Found(t, src, plan, q)
      ensures Asks(t, src, plan, ps[j], Target(q, plan.temporary), q.relation)
    {
    }
    if q :| q in ps[j].parents && Found(t, src, plan, q) { SomeIsFirst(t, src, plan, ps[j].parents, q); }
  }

  lemma {:induction false} SomeIsFirst(t: Tables, src: Source, plan: Plan, parents: seq<Parent>, q: Parent)
    requires q in parents && Found(t, src, plan, q)
    ensures exists k: nat :: FirstFound(t, src, plan, parents, k)
  {
    var front, last := parents[..|parents| - 1], parents[|parents| - 1];
    assert parents == front + [last];
    if exists e :: e in front && Found(t, src, plan, e) {
      var e :| e in front && Found(t, src, plan, e);
      SomeIsFirst(t, src, plan, front, e);
      var k: nat :| FirstFound(t, src, plan, front, k);
      assert FirstFound(t, src, plan, parents, k);
    } else {
      assert forall i | 0 <= i < |front| :: front[i] in front && parents[i] == front[i];
      assert FirstFound(t, src, plan, parents, |front|);
    }
  }

  // ---- forgetting ---------------------------------------------------------------------------------

  /** A row that can be forgotten: of the scope, neither forgotten nor past its time. */
  predicate Remembered(m: Memory, org: string, container: string, now: nat) {
    && m.org == org && m.container == container && !m.isForgotten
    && (m.forgetAfter.Some? ==> m.forgetAfter.value > now)
  }

  /** What the request names: the id if there is one, else the content. */
  predicate NamedBy(id: Option<Id>, content: Option<string>, k: Id, m: Memory) {
    if id.Some? then id == Some(k) else content == Some(m.content)
  }

  /** Forgetting takes the oldest remembered row that the request names, sets its flags, time and reason, and leaves
      every other field and row alone; without such a row nothing changes. */
  lemma ForgetWrites(norm: Normalizer, t: Tables, request: Command, k: Id)
    requires request.Forget? && RowsOk(t) && k in t.memories
    ensures var r := Apply(norm, t, request);
            var hit := Remembered(t.memories[k], request.org, request.container, request.at)
                       && NamedBy(request.id, request.content, k, t.memories[k])
                       && forall older | older in t.memories && older < k ::
                            !(Remembered(t.memories[older], request.org, request.container, request.at)
                              && NamedBy(request.id, request.content, older, t.memories[older]));
            && r.memories.Keys == t.memories.Keys && r.relations == t.relations && r.sources == t.sources
            && (!hit ==> r.memories[k] == t.memories[k])
            && (hit ==>
                  var reason := if request.reason.Some? then request.reason else Some("user_requested");
                  r.memories[k] == t.memories[k].(isForgotten := true, isLatest := false, isStatic := false,
                                                  forgetAfter := Some(request.at), forgetReason := reason))
  {
    if request.id.None? && request.content.Some? {
      FindContentInScope(t, request.org, request.container, request.content.value, t.nextId, request.at);
    }
    assert forall m | m in t.memories ::
        Forgettable(t, request.org, request.container, m, request.at)
        == Remembered(t.memories[m], request.org, request.container, request.at);
  }

  /** Deleting a document takes away its sources alone; the memories it brought in stay. */
  lemma UnlinkKeepsMemories(norm: Normalizer, t: Tables, doc: DocId, at: nat)
    ensures var r := Apply(norm, t, Unlink(doc, at));
            && r.memories == t.memories && r.active == t.active && r.relations == t.relations && r.nextId == t.nextId
            && (forall id, d :: (id, d) in r.sources <==> (id, d) in t.sources && d != doc)
  {
  }
}
