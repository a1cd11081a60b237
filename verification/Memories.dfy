/**
 The memory graph: reconciliation of extracted proposals, soft forgetting, and the tables they update.

 Identifiers are natural numbers drawn from one counter, so a larger identifier is a younger row. The
 temporary identifiers of a batch share that name space, as they share the string name space of the source.
 Content normalization is a parameter `norm`: every result holds for every normalizer.
 */
module Memories {
  import opened Options
  import Text

  type Id = nat
  type DocId = nat
  type Normalizer = string -> string

  datatype Relation = Updates | Extends | Derives

  datatype Parent = Parent(memoryId: Id, relation: Relation)

  /** One extracted fact. A missing temporary id stands for the empty string, `vectorOk` for a valid vector. */
  datatype Proposal = Proposal(
    temporaryId: Option<Id>, content: string, isInferred: bool, isStatic: bool, parents: seq<Parent>,
    forgetAfter: Option<nat>, forgetReason: Option<string>, vectorOk: bool)

  datatype Memory = Memory(
    org: string, container: string, content: string, isInferred: bool, isStatic: bool, isLatest: bool,
    isForgotten: bool, root: Option<Id>, parent: Option<Id>, version: nat,
    forgetAfter: Option<nat>, forgetReason: Option<string>)

  datatype Edge = Edge(parent: Id, child: Id, relation: Relation)

  /** The memory tables: rows, the `active` column of memory_embeddings, relations and sources. */
  datatype Tables = Tables(
    memories: map<Id, Memory>, active: map<Id, bool>, relations: set<Edge>, sources: set<(Id, DocId)>,
    nextId: nat)

  datatype Resolved = Resolved(id: Id, relation: Relation, root: Option<Id>, version: nat)

  /** Where a batch comes from and where it goes. */
  datatype Source = Source(org: string, doc: DocId, container: string)

  /** The mutable state of one reconciliation: the tables and the three local collections. */
  datatype Batch = Batch(tables: Tables, temporary: map<Id, Id>, exact: map<string, Id>, records: seq<Id>)

  datatype MemoryError = InvalidVector | InvalidMemoryProposal | MemoryNotFound

  datatype Result<+T> = Ok(value: T) | Err(error: MemoryError)

  const EmptyTables := Tables(map[], map[], {}, {}, 0)

  // ---- reading the tables -------------------------------------------------------------------------

  predicate InScope(t: Tables, org: string, container: string, id: Id) {
    id in t.memories && t.memories[id].org == org && t.memories[id].container == container
  }

  /** Latest and not forgotten, in the given scope. */
  predicate IsActive(t: Tables, org: string, container: string, id: Id) {
    InScope(t, org, container, id) && t.memories[id].isLatest && !t.memories[id].isForgotten
  }

  /** The active rows with an id below n, with their contents. */
  function ActiveRows(t: Tables, org: string, container: string, n: nat): seq<(Id, string)> {
    if n == 0 then []
    else ActiveRows(t, org, container, n - 1)
         + (if IsActive(t, org, container, n - 1) then [(n - 1, t.memories[n - 1].content)] else [])
  }

  /** The dedup map: the first row wins for each normalized content. */
  function IndexByContent(norm: Normalizer, rows: seq<(Id, string)>): map<string, Id> {
    if rows == [] then map[]
    else
      var index := IndexByContent(norm, rows[..|rows| - 1]);
      var (id, content) := rows[|rows| - 1];
      if norm(content) in index then index else index[norm(content) := id]
  }

  function ResolveParents(t: Tables, src: Source, parents: seq<Parent>, temporary: map<Id, Id>): seq<Resolved> {
    if parents == [] then []
    else
      var rest := ResolveParents(t, src, parents[..|parents| - 1], temporary);
      var parent := parents[|parents| - 1];
      var id := if parent.memoryId in temporary then temporary[parent.memoryId] else parent.memoryId;
      if InScope(t, src.org, src.container, id)
      then rest + [Resolved(id, parent.relation, t.memories[id].root, t.memories[id].version)]
      else rest
  }

  // ---- reconciliation -----------------------------------------------------------------------------

  /** The first failing check of the validation loop, if any. */
  function Validate(ps: seq<Proposal>): Option<MemoryError> {
    if ps == [] then None
    else if !ps[0].vectorOk then Some(InvalidVector)
    else if ps[0].temporaryId.None? || Text.IsBlank(ps[0].content) then Some(InvalidMemoryProposal)
    else Validate(ps[1..])
  }

  function Supersede(t: Tables, id: Id): Tables {
    t.(memories := if id in t.memories
                   then t.memories[id := t.memories[id].(isLatest := false, isStatic := false)] else t.memories,
       active := if id in t.active then t.active[id := false] else t.active)
  }

  /** Records the relations of a new row and supersedes the parents it updates, in order. */
  function Link(t: Tables, child: Id, parents: seq<Resolved>): Tables {
    if parents == [] then t
    else
      var before := Link(t, child, parents[..|parents| - 1]);
      var p := parents[|parents| - 1];
      var linked := before.(relations := before.relations + {Edge(p.id, child, p.relation)});
      if p.relation == Updates then Supersede(linked, p.id) else linked
  }

  /** The row a proposal inserts, given its resolved parents. The first parent is the primary one. */
  function NewMemory(src: Source, p: Proposal, parents: seq<Resolved>, now: nat): Memory {
    Memory(
      src.org, src.container, p.content,
      p.isInferred || exists i | 0 <= i < |parents| :: parents[i].relation == Derives,
      p.isStatic, true, false,
      if parents == [] then None
      else if parents[0].root.Some? then parents[0].root else Some(parents[0].id),
      if parents == [] then None else Some(parents[0].id),
      if parents == [] then 1 else parents[0].version + 1,
      if p.forgetAfter.Some? && p.forgetAfter.value > now then p.forgetAfter else None,
      p.forgetReason)
  }

  function Remember(temporary: map<Id, Id>, p: Proposal, id: Id): map<Id, Id> {
    if p.temporaryId.Some? then temporary[p.temporaryId.value := id] else temporary
  }

  /** A proposal whose normalized content is already known only gains a source. */
  function Merge(b: Batch, src: Source, p: Proposal, existing: Id): Batch {
    Batch(b.tables.(sources := b.tables.sources + {(existing, src.doc)}),
          Remember(b.temporary, p, existing), b.exact, b.records + [existing])
  }

  /** The tables after the new row and its source, before its relations. */
  function Inserted(t: Tables, src: Source, m: Memory): Tables {
    Tables(t.memories[t.nextId := m], t.active[t.nextId := true], t.relations,
           t.sources + {(t.nextId, src.doc)}, t.nextId + 1)
  }

  /** Any other proposal becomes a new row, linked to its resolved parents. */
  function Insert(norm: Normalizer, b: Batch, src: Source, p: Proposal, now: nat): Batch {
    var id := b.tables.nextId;
    var parents := ResolveParents(b.tables, src, p.parents, b.temporary);
    Batch(Link(Inserted(b.tables, src, NewMemory(src, p, parents, now)), id, parents),
          Remember(b.temporary, p, id), b.exact[norm(p.content) := id], b.records + [id])
  }

  function Admit(norm: Normalizer, b: Batch, src: Source, p: Proposal, now: nat): Batch {
    if norm(p.content) in b.exact then Merge(b, src, p, b.exact[norm(p.content)])
    else Insert(norm, b, src, p, now)
  }

  function AdmitAll(norm: Normalizer, b: Batch, src: Source, ps: seq<Proposal>, now: nat): Batch {
    if ps == [] then b
    else Admit(norm, AdmitAll(norm, b, src, ps[..|ps| - 1], now), src, ps[|ps| - 1], now)
  }

  function Begin(norm: Normalizer, t: Tables, src: Source): Batch {
    Batch(t, map[], IndexByContent(norm, ActiveRows(t, src.org, src.container, t.nextId)), [])
  }

  function Reconcile(norm: Normalizer, t: Tables, src: Source, ps: seq<Proposal>, now: nat): Result<Batch> {
    var failure := Validate(ps);
    if failure.Some? then Err(failure.value) else Ok(AdmitAll(norm, Begin(norm, t, src), src, ps, now))
  }

  // ---- forgetting ---------------------------------------------------------------------------------

  predicate Expired(m: Memory, now: nat) {
    m.forgetAfter.Some? && m.forgetAfter.value <= now
  }

  predicate Forgettable(t: Tables, org: string, container: string, id: Id, now: nat) {
    InScope(t, org, container, id) && !t.memories[id].isForgotten && !Expired(t.memories[id], now)
  }

  /** The oldest forgettable row below n with exactly this content. */
  function FindContent(t: Tables, org: string, container: string, content: string, n: nat, now: nat): Option<Id> {
    if n == 0 then None
    else
      var older := FindContent(t, org, container, content, n - 1, now);
      if older.Some? then older
      else if Forgettable(t, org, container, n - 1, now) && t.memories[n - 1].content == content then Some(n - 1)
      else None
  }

  function FindForgettable(t: Tables, org: string, container: string, id: Option<Id>, content: Option<string>,
                           now: nat): Option<Id> {
    if id.Some? then (if Forgettable(t, org, container, id.value, now) then id else None)
    else if content.Some? then FindContent(t, org, container, content.value, t.nextId, now)
    else None
  }

  function ForgetRow(t: Tables, id: Id, reason: Option<string>, now: nat): Tables {
    var why := if reason.Some? then reason.value else "user_requested";
    t.(memories := if id in t.memories
                   then t.memories[id := t.memories[id].(
                     isForgotten := true, isLatest := false, isStatic := false,
                     forgetAfter := Some(now), forgetReason := Some(why))]
                   else t.memories,
       active := if id in t.active then t.active[id := false] else t.active)
  }

  /** Deleting a document cascades to its source rows only. */
  function DropSource(t: Tables, doc: DocId): Tables {
    t.(sources := set s | s in t.sources && s.1 != doc)
  }

  // ---- runs ---------------------------------------------------------------------------------------

  datatype Command =
    | Publish(src: Source, proposals: seq<Proposal>, at: nat)
    | Forget(org: string, id: Option<Id>, content: Option<string>, container: string, reason: Option<string>, at: nat)
    | Unlink(doc: DocId, at: nat)

  /** One committed transaction on the memory tables; a failing one leaves them as they were. */
  function Apply(norm: Normalizer, t: Tables, c: Command): Tables {
    match c
    case Publish(src, ps, at) =>
      var r := Reconcile(norm, t, src, ps, at);
      if r.Ok? then r.value.tables else t
    case Forget(org, id, content, container, reason, at) =>
      var found := FindForgettable(t, org, container, id, content, at);
      if found.Some? then ForgetRow(t, found.value, reason, at) else t
    case Unlink(doc, at) => DropSource(t, doc)
  }

  function ApplyAll(norm: Normalizer, t: Tables, cs: seq<Command>): Tables {
    if cs == [] then t else Apply(norm, ApplyAll(norm, t, cs[..|cs| - 1]), cs[|cs| - 1])
  }
}
