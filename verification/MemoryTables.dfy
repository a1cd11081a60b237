/** The memory half of the storage object: the loops of reconciliation and forgetting over mutable tables. */
module MemoryStorage {
  import opened Options
  import opened Memories
  import Text

  class MemoryTables {
    var memories: map<Id, Memory>
    var active: map<Id, bool>
    var relations: set<Edge>
    var sources: set<(Id, DocId)>
    var nextId: nat

    /** The tables as one value. */
    ghost function View(): Tables
      reads this
    {
      Tables(memories, active, relations, sources, nextId)
    }

    constructor ()
      ensures View() == EmptyTables
    {
      memories, active, relations, sources, nextId := map[], map[], {}, {}, 0;
    }

    /** active_memory_ids_by_content: `entry(..).or_insert(..)` over the active rows. */
    method ActiveIdsByContent(norm: Normalizer, org: string, container: string) returns (exact: map<string, Id>)
      ensures exact == IndexByContent(norm, ActiveRows(View(), org, container, nextId))
    {
      exact := map[];
      ghost var rows := [];
      for id := 0 to nextId
        invariant rows == ActiveRows(View(), org, container, id)
        invariant exact == IndexByContent(norm, rows)
      {
        if id in memories && memories[id].org == org && memories[id].container == container
           && memories[id].isLatest && !memories[id].isForgotten
        {
          var key := norm(memories[id].content);
          assert (rows + [(id, memories[id].content)])[..|rows|] == rows;
          rows := rows + [(id, memories[id].content)];
          if key !in exact {
            exact := exact[key := id];
          }
        }
      }
    }

    method ResolveMemoryParents(src: Source, parents: seq<Parent>, temporary: map<Id, Id>)
      returns (result: seq<Resolved>)
      ensures result == ResolveParents(View(), src, parents, temporary)
    {
      result := [];
      for i := 0 to |parents|
        invariant result == ResolveParents(View(), src, parents[..i], temporary)
      {
        assert parents[..i + 1][..i] == parents[..i];
        var id := if parents[i].memoryId in temporary then temporary[parents[i].memoryId] else parents[i].memoryId;
        if id in memories && memories[id].org == src.org && memories[id].container == src.container {
          result := result + [Resolved(id, parents[i].relation, memories[id].root, memories[id].version)];
        }
      }
      assert parents[..|parents|] == parents;
    }

    /** The loop over the parents of a freshly inserted row. */
    method LinkParents(child: Id, parents: seq<Resolved>)
      modifies this
      ensures View() == Link(old(View()), child, parents)
    {
      for i := 0 to |parents|
        invariant View() == Link(old(View()), child, parents[..i])
      {
        assert parents[..i + 1][..i] == parents[..i];
        var parent := parents[i];
        relations := relations + {Edge(parent.id, child, parent.relation)};
        if parent.relation == Updates {
          if parent.id in memories {
            memories := memories[parent.id := memories[parent.id].(isLatest := false, isStatic := false)];
          }
          if parent.id in active {
            active := active[parent.id := false];
          }
        }
      }
      assert parents[..|parents|] == parents;
    }

    /** The first failing check, proposal by proposal. */
    method CheckProposals(proposals: seq<Proposal>) returns (failure: Option<MemoryError>)
      ensures failure == Validate(proposals)
    {
      for i := 0 to |proposals|
        invariant Validate(proposals) == Validate(proposals[i..])
      {
        if !proposals[i].vectorOk {
          return Some(InvalidVector);
        }
        if proposals[i].temporaryId.None? || Text.IsBlank(proposals[i].content) {
          return Some(InvalidMemoryProposal);
        }
      }
      return None;
    }

    /** Inserts one row with its source and its relations. */
    method InsertMemory(src: Source, proposal: Proposal, temporary: map<Id, Id>, now: nat) returns (id: Id)
      modifies this
      ensures id == old(nextId)
      ensures var parents := ResolveParents(old(View()), src, proposal.parents, temporary);
              View() == Link(Inserted(old(View()), src, NewMemory(src, proposal, parents, now)), id, parents)
    {
      var parents := ResolveMemoryParents(src, proposal.parents, temporary);
      id := nextId;
      nextId := nextId + 1;
      memories := memories[id := NewMemory(src, proposal, parents, now)];
      sources := sources + {(id, src.doc)};
      active := active[id := true];
      LinkParents(id, parents);
    }

    /** Merges a proposal into the row that already has its content, or inserts it; the row's id and the new dedup
        map. */
    method AdmitProposal(norm: Normalizer, src: Source, proposal: Proposal, now: nat, temporary: map<Id, Id>,
                         exact: map<string, Id>) returns (id: Id, known: map<string, Id>)
      modifies this
      ensures forall records: seq<Id> ::
                Admit(norm, Batch(old(View()), temporary, exact, records), src, proposal, now)
                == Batch(View(), Remember(temporary, proposal, id), known, records + [id])
    {
      var key := norm(proposal.content);
      known := exact;
      if key in exact {
        id := exact[key];
        sources := sources + {(id, src.doc)};
      } else {
        id := InsertMemory(src, proposal, temporary, now);
        known := exact[key := id];
      }
    }

    /** Validates every proposal, then admits them one by one; an invalid batch changes nothing. */
    method ReconcileMemories(norm: Normalizer, src: Source, proposals: seq<Proposal>, now: nat)
      returns (result: Result<seq<Id>>)
      modifies this
      ensures match Reconcile(norm, old(View()), src, proposals, now)
              case Ok(batch) => View() == batch.tables && result == Ok(batch.records)
              case Err(error) => View() == old(View()) && result == Err(error)
    {
      var failure := CheckProposals(proposals);
      if failure.Some? {
        return Err(failure.value);
      }
      var exact: map<string, Id> := ActiveIdsByContent(norm, src.org, src.container);
      var temporary: map<Id, Id> := map[];
      var records: seq<Id> := [];
      ghost var start := Begin(norm, old(View()), src);
      for i := 0 to |proposals|
        invariant Batch(View(), temporary, exact, records) == AdmitAll(norm, start, src, proposals[..i], now)
      {
        assert proposals[..i + 1][..i] == proposals[..i];
        var proposal := proposals[i];
        var id;
        id, exact := AdmitProposal(norm, src, proposal, now, temporary, exact);
        if proposal.temporaryId.Some? {
          temporary := temporary[proposal.temporaryId.value := id];
        }
        records := records + [id];
      }
      assert proposals[..|proposals|] == proposals;
      result := Ok(records);
    }

    /** Soft-forgets the row named by id, else the oldest forgettable row with the given content. */
    method ForgetMemory(org: string, id: Option<Id>, content: Option<string>, container: string,
                        reason: Option<string>, now: nat) returns (result: Result<Id>)
      modifies this
      ensures match FindForgettable(old(View()), org, container, id, content, now)
              case Some(found) => View() == ForgetRow(old(View()), found, reason, now) && result == Ok(found)
              case None => View() == old(View()) && result == Err(MemoryNotFound)
    {
      var found: Option<Id> := None;
      if id.Some? {
        if CanForget(org, container, id.value, now) {
          found := id;
        }
      } else if content.Some? {
        for k := 0 to nextId
          invariant found == FindContent(View(), org, container, content.value, k, now)
          invariant View() == old(View())
        {
          if found.None? && CanForget(org, container, k, now) && memories[k].content == content.value {
            found := Some(k);
          }
        }
      }
      if found.None? {
        return Err(MemoryNotFound);
      }
      var why := if reason.Some? then reason.value else "user_requested";
      if found.value in memories {
        memories := memories[found.value := memories[found.value].(
          isForgotten := true, isLatest := false, isStatic := false,
          forgetAfter := Some(now), forgetReason := Some(why))];
      }
      if found.value in active {
        active := active[found.value := false];
      }
      result := Ok(found.value);
    }

    predicate CanForget(org: string, container: string, id: Id, now: nat)
      reads this
      ensures CanForget(org, container, id, now) == Forgettable(View(), org, container, id, now)
    {
      && id in memories && memories[id].org == org && memories[id].container == container
      && !memories[id].isForgotten && !Expired(memories[id], now)
    }
  }
}
