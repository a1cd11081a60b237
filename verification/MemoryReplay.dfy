/** When replaying a committed batch of memories is a no-op. */
module MemoryReplay {
  import opened Options
  import opened Memories
  import opened MemoryInvariants
  import Text

  // ---- replay -------------------------------------------------------------------------------------

  /** The content of a proposal is held by an active row of the batch's scope. */
  ghost predicate StillActive(norm: Normalizer, t: Tables, src: Source, p: Proposal) {
    exists id :: IsActive(t, src.org, src.container, id) && norm(t.memories[id].content) == norm(p.content)
  }

  /** Every proposal handled so far is in the dedup map, and its row has this document as a source. */
  ghost predicate Sourced(norm: Normalizer, b: Batch, src: Source, ps: seq<Proposal>) {
    forall i | 0 <= i < |ps| ::
      norm(ps[i].content) in b.exact && (b.exact[norm(ps[i].content)], src.doc) in b.tables.sources
  }

  lemma {:induction false} AdmitAllSources(norm: Normalizer, b: Batch, src: Source, ps: seq<Proposal>, now: nat)
    ensures var r := AdmitAll(norm, b, src, ps, now);
            && Sourced(norm, r, src, ps)
            && b.tables.sources <= r.tables.sources
  {
    if ps != [] {
      var front, p := ps[..|ps| - 1], ps[|ps| - 1];
      AdmitAllSources(norm, b, src, front, now);
      var before := AdmitAll(norm, b, src, front, now);
      var r := Admit(norm, before, src, p, now);
      if norm(p.content) !in before.exact {
        var parents := ResolveParents(before.tables, src, p.parents, before.temporary);
        LinkEffect(Inserted(before.tables, src, NewMemory(src, p, parents, now)), before.tables.nextId, parents);
      }
      forall i | 0 <= i < |ps|
        ensures norm(ps[i].content) in r.exact && (r.exact[norm(ps[i].content)], src.doc) in r.tables.sources
      {
        if i < |front| { assert front[i] == ps[i]; }
      }
    }
  }

  /**
   Reconciliation answers every proposal, in order, with a row of its own scope that holds its normalized
   content and has the batch's document among its sources.
   */
  lemma {:induction false} RecordsHoldTheirContent(norm: Normalizer, t: Tables, src: Source, ps: seq<Proposal>,
                                                   now: nat)
    requires Inv(norm, t, now)
    ensures var r := AdmitAll(norm, Begin(norm, t, src), src, ps, now);
            && |r.records| == |ps|
            && forall i | 0 <= i < |ps| ::
                 && Holds(norm, r.tables, src, r.records[i], norm(ps[i].content))
                 && (r.records[i], src.doc) in r.tables.sources
  {
    BeginIsIndexed(norm, t, src, now);
    AdmitAllKeepsInv(norm, Begin(norm, t, src), src, ps, now);
    AdmitAllSources(norm, Begin(norm, t, src), src, ps, now);
    RecordsAreExact(norm, Begin(norm, t, src), src, ps, now);
  }

  lemma {:induction false} RecordsAreExact(norm: Normalizer, b: Batch, src: Source, ps: seq<Proposal>, now: nat)
    requires b.records == []
    ensures var r := AdmitAll(norm, b, src, ps, now);
            |r.records| == |ps| && forall i | 0 <= i < |ps| ::
              norm(ps[i].content) in r.exact && r.records[i] == r.exact[norm(ps[i].content)]
  {
    if ps != [] {
      var front := ps[..|ps| - 1];
      RecordsAreExact(norm, b, src, front, now);
      assert forall i | 0 <= i < |front| :: front[i] == ps[i];
    }
  }

  /** A batch whose contents are all active and already sourced changes nothing at all. */
  lemma {:induction false} AdmitKnown(norm: Normalizer, b: Batch, src: Source, ps: seq<Proposal>, now: nat)
    requires Sourced(norm, b, src, ps)
    ensures AdmitAll(norm, b, src, ps, now).tables == b.tables && AdmitAll(norm, b, src, ps, now).exact == b.exact
  {
    if ps != [] {
      var front := ps[..|ps| - 1];
      assert forall i | 0 <= i < |front| :: front[i] == ps[i];
      AdmitKnown(norm, b, src, front, now);
      assert norm(ps[|ps| - 1].content) in b.exact;
      assert b.tables.sources + {(b.exact[norm(ps[|ps| - 1].content)], src.doc)} == b.tables.sources;
    }
  }

  lemma {:induction false} AdmitAllGrows(norm: Normalizer, b: Batch, src: Source, ps: seq<Proposal>, now: nat)
    ensures var r := AdmitAll(norm, b, src, ps, now);
            && b.tables.nextId <= r.tables.nextId
            && b.exact.Keys <= r.exact.Keys
            && (r.tables.nextId == b.tables.nextId ==> forall i | 0 <= i < |ps| :: norm(ps[i].content) in b.exact)
            && (r.tables.nextId == b.tables.nextId ==> r.exact == b.exact)
  {
    if ps != [] {
      var front, p := ps[..|ps| - 1], ps[|ps| - 1];
      AdmitAllGrows(norm, b, src, front, now);
      var before := AdmitAll(norm, b, src, front, now);
      if norm(p.content) !in before.exact {
        var parents := ResolveParents(before.tables, src, p.parents, before.temporary);
        LinkEffect(Inserted(before.tables, src, NewMemory(src, p, parents, now)), before.tables.nextId, parents);
      } else if AdmitAll(norm, b, src, ps, now).tables.nextId == b.tables.nextId {
        assert forall i | 0 <= i < |front| :: front[i] == ps[i];
      }
    }
  }

  /** A batch whose contents are all still active finds each of them, with its source. */
  lemma ReplayOfActive(norm: Normalizer, t: Tables, src: Source, ps: seq<Proposal>, now: nat, later: nat)
    requires Inv(norm, t, now) && now <= later
    ensures var once := AdmitAll(norm, Begin(norm, t, src), src, ps, now).tables;
            (forall i | 0 <= i < |ps| :: StillActive(norm, once, src, ps[i]))
            ==> AdmitAll(norm, Begin(norm, once, src), src, ps, later).tables == once
  {
    var first := AdmitAll(norm, Begin(norm, t, src), src, ps, now);
    var once := first.tables;
    BeginIsIndexed(norm, t, src, now);
    AdmitAllKeepsInv(norm, Begin(norm, t, src), src, ps, now);
    AdmitAllSources(norm, Begin(norm, t, src), src, ps, now);
    var again := Begin(norm, once, src);
    BeginIsIndexed(norm, once, src, later);
    if forall i | 0 <= i < |ps| :: StillActive(norm, once, src, ps[i]) {
      forall i | 0 <= i < |ps|
        ensures norm(ps[i].content) in again.exact && (again.exact[norm(ps[i].content)], src.doc) in once.sources
      {
        var id :| IsActive(once, src.org, src.container, id) && norm(once.memories[id].content) == norm(ps[i].content);
        assert first.exact[norm(once.memories[id].content)] == id;
      }
      AdmitKnown(norm, again, src, ps, later);
    }
  }

  /** A batch that adds no row finds every content active. */
  lemma ActiveIfReplayed(norm: Normalizer, t: Tables, src: Source, ps: seq<Proposal>, now: nat)
    requires AdmitAll(norm, Begin(norm, t, src), src, ps, now).tables == t
    ensures forall i | 0 <= i < |ps| :: StillActive(norm, t, src, ps[i])
  {
    var rows := ActiveRows(t, src.org, src.container, t.nextId);
    var begun := Begin(norm, t, src);
    AdmitAllGrows(norm, begun, src, ps, now);
    ActiveRowsExact(t, src.org, src.container, t.nextId);
    IndexCovers(norm, rows);
    forall i | 0 <= i < |ps| ensures StillActive(norm, t, src, ps[i]) {
      var key := norm(ps[i].content);
      var row :| row in rows && row.0 == begun.exact[key] && norm(row.1) == key;
      assert IsActive(t, src.org, src.container, row.0);
    }
  }

  /** Replaying a committed batch is a no-op exactly when every proposal's content is still active afterwards. */
  lemma ReplayIffStillActive(norm: Normalizer, t: Tables, src: Source, ps: seq<Proposal>, now: nat, later: nat)
    requires Inv(norm, t, now) && Validate(ps).None? && now <= later
    ensures var once := Apply(norm, t, Publish(src, ps, now));
            Apply(norm, once, Publish(src, ps, later)) == once
            <==> forall i | 0 <= i < |ps| :: StillActive(norm, once, src, ps[i])
  {
    var once := AdmitAll(norm, Begin(norm, t, src), src, ps, now).tables;
    ReplayOfActive(norm, t, src, ps, now, later);
    if Apply(norm, once, Publish(src, ps, later)) == once { ActiveIfReplayed(norm, once, src, ps, later); }
  }

  // ---- the bookkeeping of a batch -----------------------------------------------------------------

  /** What a batch will note down: which row answers each content and each temporary id, and the next row's id. */
  datatype Plan = Plan(exact: map<string, Id>, temporary: map<Id, Id>, nextId: nat)

  function PlanOf(norm: Normalizer, t: Tables, src: Source, ps: seq<Proposal>): Plan {
    if ps == [] then Plan(IndexByContent(norm, ActiveRows(t, src.org, src.container, t.nextId)), map[], t.nextId)
    else
      var before, p := PlanOf(norm, t, src, ps[..|ps| - 1]), ps[|ps| - 1];
      var key := norm(p.content);
      if key in before.exact then before.(temporary := Remember(before.temporary, p, before.exact[key]))
      else Plan(before.exact[key := before.nextId], Remember(before.temporary, p, before.nextId), before.nextId + 1)
  }

  function Target(parent: Parent, temporary: map<Id, Id>): Id {
    if parent.memoryId in temporary then temporary[parent.memoryId] else parent.memoryId
  }

  /** Proposal j brings a new content and updates the row with this id. */
  ghost predicate UpdatesRow(norm: Normalizer, t: Tables, src: Source, ps: seq<Proposal>, j: nat, id: Id)
    requires j < |ps|
  {
    var before := PlanOf(norm, t, src, ps[..j]);
    && norm(ps[j].content) !in before.exact && id < before.nextId
    && exists parent :: parent in ps[j].parents && parent.relation.Updates? && Target(parent, before.temporary) == id
  }

  /** Some proposal of the batch updates the row that answers proposal i. */
  ghost predicate Superseded(norm: Normalizer, t: Tables, src: Source, ps: seq<Proposal>, i: nat)
    requires i < |ps|
  {
    var exact, key := PlanOf(norm, t, src, ps).exact, norm(ps[i].content);
    key in exact && exists j :: 0 <= j < |ps| && UpdatesRow(norm, t, src, ps, j, exact[key])
  }

  /** The plan is what the batch notes down. */
  lemma {:induction false} PlanIsExact(norm: Normalizer, t: Tables, src: Source, ps: seq<Proposal>, now: nat)
    ensures var r, plan := AdmitAll(norm, Begin(norm, t, src), src, ps, now), PlanOf(norm, t, src, ps);
            r.exact == plan.exact && r.temporary == plan.temporary && r.tables.nextId == plan.nextId
  {
    if ps != [] {
      var front, p := ps[..|ps| - 1], ps[|ps| - 1];
      PlanIsExact(norm, t, src, front, now);
      var before := AdmitAll(norm, Begin(norm, t, src), src, front, now);
      var parents := ResolveParents(before.tables, src, p.parents, before.temporary);
      LinkEffect(Inserted(before.tables, src, NewMemory(src, p, parents, now)), before.tables.nextId, parents);
    }
  }

  lemma {:induction false} PlanGrows(norm: Normalizer, t: Tables, src: Source, ps: seq<Proposal>, j: nat)
    requires j <= |ps|
    ensures t.nextId <= PlanOf(norm, t, src, ps[..j]).nextId <= PlanOf(norm, t, src, ps).nextId
  {
    if j < |ps| {
      PlanGrows(norm, t, src, ps[..|ps| - 1], j);
      assert ps[..|ps| - 1][..j] == ps[..j];
    } else {
      assert ps[..j] == ps;
      if ps != [] { PlanGrows(norm, t, src, ps[..|ps| - 1], |ps| - 1); }
    }
  }

  /** The rows a proposal updates, in terms of its parents. */
  lemma {:induction false} ResolvedUpdates(t: Tables, src: Source, parents: seq<Parent>, temporary: map<Id, Id>, id: Id)
    ensures UpdatedBy(ResolveParents(t, src, parents, temporary), id)
            <==> InScope(t, src.org, src.container, id)
                 && exists parent :: parent in parents && parent.relation.Updates? && Target(parent, temporary) == id
  {
    if parents != [] {
      var front, last := parents[..|parents| - 1], parents[|parents| - 1];
      ResolvedUpdates(t, src, front, temporary, id);
      assert parents == front + [last];
      var rest, all := ResolveParents(t, src, front, temporary), ResolveParents(t, src, parents, temporary);
      assert rest <= all;
      if UpdatedBy(rest, id) {
        var k :| 0 <= k < |rest| && rest[k].id == id && rest[k].relation == Updates;
        assert all[k] == rest[k];
      }
      if Target(last, temporary) == id && last.relation.Updates? && InScope(t, src.org, src.container, id) {
        assert all[|rest|].id == id && all[|rest|].relation == Updates;
      }
    }
  }

  // ---- which rows a batch supersedes --------------------------------------------------------------

  ghost predicate UpdatedInBatch(norm: Normalizer, t: Tables, src: Source, ps: seq<Proposal>, id: Id) {
    exists j :: 0 <= j < |ps| && UpdatesRow(norm, t, src, ps, j, id)
  }

  /** What one more proposal adds. */
  lemma UpdatedPush(norm: Normalizer, t: Tables, src: Source, ps: seq<Proposal>, id: Id)
    requires ps != []
    ensures UpdatedInBatch(norm, t, src, ps, id)
            <==> UpdatedInBatch(norm, t, src, ps[..|ps| - 1], id) || UpdatesRow(norm, t, src, ps, |ps| - 1, id)
  {
    var front := ps[..|ps| - 1];
    forall j | 0 <= j < |front|
      ensures UpdatesRow(norm, t, src, front, j, id) <==> UpdatesRow(norm, t, src, ps, j, id)
    {
      assert front[..j] == ps[..j];
    }
  }

  lemma NewRowIsNotUpdated(norm: Normalizer, t: Tables, src: Source, ps: seq<Proposal>, id: Id)
    requires id >= PlanOf(norm, t, src, ps).nextId
    ensures !UpdatedInBatch(norm, t, src, ps, id)
  {
    forall j | 0 <= j < |ps| ensures !UpdatesRow(norm, t, src, ps, j, id) { PlanGrows(norm, t, src, ps, j); }
  }

  /** A row of the scope stays what it was, except that the batch's updates end its being latest. */
  ghost predicate RowAfter(norm: Normalizer, t: Tables, src: Source, ps: seq<Proposal>, r: Tables, id: Id)
    requires id in r.memories
  {
    var m := r.memories[id];
    && (m.isLatest <==> (id in t.memories ==> t.memories[id].isLatest) && !UpdatedInBatch(norm, t, src, ps, id))
    && (m.isForgotten <==> id in t.memories && t.memories[id].isForgotten)
  }

  lemma RowAfterLast(norm: Normalizer, t: Tables, src: Source, ps: seq<Proposal>, b: Tables, r: Tables, id: Id,
                     updated: bool)
    requires ps != [] && id in b.memories && id in r.memories && RowAfter(norm, t, src, ps[..|ps| - 1], b, id)
    requires r.memories[id] == if updated then Demoted(b.memories[id]) else b.memories[id]
    requires UpdatesRow(norm, t, src, ps, |ps| - 1, id) <==> updated
    ensures RowAfter(norm, t, src, ps, r, id)
  {
    UpdatedPush(norm, t, src, ps, id);
  }

  /** In terms of the batch so far: which rows the last proposal demotes. */
  lemma LastUpdates(norm: Normalizer, t: Tables, src: Source, ps: seq<Proposal>, before: Batch, id: Id)
    requires ps != [] && RowsOk(before.tables) && InScope(before.tables, src.org, src.container, id)
    requires PlanOf(norm, t, src, ps[..|ps| - 1]) == Plan(before.exact, before.temporary, before.tables.nextId)
    requires norm(ps[|ps| - 1].content) !in before.exact
    ensures UpdatesRow(norm, t, src, ps, |ps| - 1, id)
            <==> UpdatedBy(ResolveParents(before.tables, src, ps[|ps| - 1].parents, before.temporary), id)
  {
    ResolvedUpdates(before.tables, src, ps[|ps| - 1].parents, before.temporary, id);
  }

  lemma NewRowAfter(norm: Normalizer, t: Tables, src: Source, ps: seq<Proposal>, r: Tables, id: Id)
    requires RowsOk(t) && ps != [] && id in r.memories && id == PlanOf(norm, t, src, ps[..|ps| - 1]).nextId
    requires r.memories[id].isLatest && !r.memories[id].isForgotten
    ensures RowAfter(norm, t, src, ps, r, id)
  {
    PlanGrows(norm, t, src, ps[..|ps| - 1], 0);
    UpdatedPush(norm, t, src, ps, id);
    NewRowIsNotUpdated(norm, t, src, ps[..|ps| - 1], id);
  }

  lemma BatchRowsOk(norm: Normalizer, t: Tables, src: Source, ps: seq<Proposal>, now: nat)
    requires Inv(norm, t, now)
    ensures RowsOk(t) && RowsOk(AdmitAll(norm, Begin(norm, t, src), src, ps, now).tables)
  {
    BeginIsIndexed(norm, t, src, now);
    AdmitAllKeepsInv(norm, Begin(norm, t, src), src, ps, now);
  }

  lemma {:induction false} RowsAfter(norm: Normalizer, t: Tables, src: Source, ps: seq<Proposal>, now: nat, id: Id)
    requires Inv(norm, t, now)
    requires InScope(AdmitAll(norm, Begin(norm, t, src), src, ps, now).tables, src.org, src.container, id)
    ensures RowAfter(norm, t, src, ps, AdmitAll(norm, Begin(norm, t, src), src, ps, now).tables, id)
  {
    if ps != [] {
      var front, p := ps[..|ps| - 1], ps[|ps| - 1];
      var before := AdmitAll(norm, Begin(norm, t, src), src, front, now);
      var r := Admit(norm, before, src, p, now).tables;
      PlanIsExact(norm, t, src, front, now);
      BatchRowsOk(norm, t, src, front, now);
      if norm(p.content) in before.exact {
        RowsAfter(norm, t, src, front, now, id);
        RowAfterLast(norm, t, src, ps, before.tables, r, id, false);
      } else {
        var parents := ResolveParents(before.tables, src, p.parents, before.temporary);
        InsertHasEffect(norm, before, src, p, now);
        if id == before.tables.nextId {
          NewRowAfter(norm, t, src, ps, r, id);
        } else {
          RowsAfter(norm, t, src, front, now, id);
          LastUpdates(norm, t, src, ps, before, id);
          RowAfterLast(norm, t, src, ps, before.tables, r, id, UpdatedBy(parents, id));
        }
      }
    }
  }

  /** The row that answers a proposal is active afterwards exactly if no proposal of the batch updates it. */
  lemma AnswerIsActive(norm: Normalizer, t: Tables, src: Source, ps: seq<Proposal>, now: nat, i: nat)
    requires Inv(norm, t, now) && i < |ps|
    ensures StillActive(norm, AdmitAll(norm, Begin(norm, t, src), src, ps, now).tables, src, ps[i])
            <==> !Superseded(norm, t, src, ps, i)
  {
    var r := AdmitAll(norm, Begin(norm, t, src), src, ps, now);
    var key := norm(ps[i].content);
    BeginIsIndexed(norm, t, src, now);
    AdmitAllKeepsInv(norm, Begin(norm, t, src), src, ps, now);
    AdmitAllSources(norm, Begin(norm, t, src), src, ps, now);
    PlanIsExact(norm, t, src, ps, now);
    var id := r.exact[key];
    RowsAfter(norm, t, src, ps, now, id);
    AnswerWasActive(norm, t, src, ps, now, key);
    if StillActive(norm, r.tables, src, ps[i]) {
      var other :| IsActive(r.tables, src.org, src.container, other) && norm(r.tables.memories[other].content) == key;
      assert r.exact[key] == other;
    }
  }

  /** An answering row is an active row of the tables before, or a new one. */
  lemma {:induction false} AnswerWasActive(norm: Normalizer, t: Tables, src: Source, ps: seq<Proposal>, now: nat,
                                           key: string)
    requires Inv(norm, t, now) && key in PlanOf(norm, t, src, ps).exact
    ensures var id := PlanOf(norm, t, src, ps).exact[key];
            id in t.memories ==> t.memories[id].isLatest && !t.memories[id].isForgotten
  {
    if ps == [] {
      var rows := ActiveRows(t, src.org, src.container, t.nextId);
      ActiveRowsExact(t, src.org, src.container, t.nextId);
      IndexCovers(norm, rows);
      var row :| row in rows && row.0 == PlanOf(norm, t, src, ps).exact[key] && norm(row.1) == key;
      assert IsActive(t, src.org, src.container, row.0);
    } else {
      var front := ps[..|ps| - 1];
      PlanGrows(norm, t, src, front, 0);
      if key in PlanOf(norm, t, src, front).exact { AnswerWasActive(norm, t, src, front, now, key); }
    }
  }

  /**
   Replaying a committed batch is a no-op exactly when no proposal of it updates the row that answers another one, which
   the batch's contents, temporary ids and parents decide together with the contents active before.
   */
  lemma ReplayIdempotentIff(norm: Normalizer, t: Tables, src: Source, ps: seq<Proposal>, now: nat, later: nat)
    requires Inv(norm, t, now) && Validate(ps).None? && now <= later
    ensures var once := Apply(norm, t, Publish(src, ps, now));
            Apply(norm, once, Publish(src, ps, later)) == once
            <==> forall i | 0 <= i < |ps| :: !Superseded(norm, t, src, ps, i)
  {
    ReplayIffStillActive(norm, t, src, ps, now, later);
    forall i | 0 <= i < |ps|
      ensures StillActive(norm, Apply(norm, t, Publish(src, ps, now)), src, ps[i]) <==> !Superseded(norm, t, src, ps, i)
    {
      AnswerIsActive(norm, t, src, ps, now, i);
    }
  }

  // ---- an example ---------------------------------------------------------------------------------

  const Verbatim: Normalizer := s => s
  const ExampleSource := Source("org", 0, "box")
  const FirstFact := Proposal(Some(0), "a", false, false, [], None, None, true)
  const UpdatingFact := Proposal(Some(1), "b", false, false, [Parent(0, Updates)], None, None, true)

  lemma ExampleIsValid()
    ensures Validate([FirstFact, UpdatingFact]).None?
  {
    var ps := [FirstFact, UpdatingFact];
    assert ps[1..] == [UpdatingFact] && [UpdatingFact][1..] == [];
    assert !Text.IsWhitespace(FirstFact.content[0]) && !Text.IsWhitespace(UpdatingFact.content[0]);
    assert Validate([UpdatingFact]).None?;
  }

  lemma ExampleIsSuperseded()
    ensures Superseded(Verbatim, EmptyTables, ExampleSource, [FirstFact, UpdatingFact], 0)
  {
    var ps := [FirstFact, UpdatingFact];
    var none := PlanOf(Verbatim, EmptyTables, ExampleSource, []);
    assert none == Plan(map[], map[], 0);
    assert ps[..1] == [FirstFact] && [FirstFact][..0] == [];
    var first := PlanOf(Verbatim, EmptyTables, ExampleSource, [FirstFact]);
    assert first == Plan(map["a" := 0], map[0 := 0], 1);
    assert "b" != "a" by { assert "b"[0] == 'b' && "a"[0] == 'a'; }
    assert UpdatingFact.parents[0] in UpdatingFact.parents;
    assert UpdatesRow(Verbatim, EmptyTables, ExampleSource, ps, 1, 0);
  }

  /** A two-proposal batch, the second updating the first, is not idempotent under replay. */
  lemma ReplayOfAnUpdateChanges()
    ensures var batch := Publish(ExampleSource, [FirstFact, UpdatingFact], 0);
            var once := Apply(Verbatim, EmptyTables, batch);
            Apply(Verbatim, once, batch) != once
  {
    ExampleIsValid();
    ExampleIsSuperseded();
    ReplayIdempotentIff(Verbatim, EmptyTables, ExampleSource, [FirstFact, UpdatingFact], 0, 0);
  }
}
