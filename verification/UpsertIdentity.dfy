/** What an upsert records, and when repeating it at once is a no-op. */
module UpsertIdentity {
  import opened Options
  import opened JobStore
  import opened JobInvariants
  import opened JobUpserts
  import Text

  // ---- metadata -----------------------------------------------------------------------------------

  /** A JSON object has every key once. */
  predicate UniqueKeys(m: Metadata) {
    forall i, j | 0 <= i < j < |m| :: m[i].0 != m[j].0
  }

  function Lookup(m: Metadata, key: string): Option<string> {
    if m == [] then None else if m[0].0 == key then Some(m[0].1) else Lookup(m[1..], key)
  }

  lemma {:induction false} PutLookup(m: Metadata, key: string, value: string, other: string)
    ensures Lookup(PutEntry(m, key, value), other) == if other == key then Some(value) else Lookup(m, other)
  {
    if m != [] {
      PutLookup(m[1..], key, value, other);
      if m[0].0 == key {
        assert ([(key, value)] + m[1..])[1..] == m[1..];
      } else {
        assert ([m[0]] + PutEntry(m[1..], key, value))[1..] == PutEntry(m[1..], key, value);
      }
    }
  }

  /** The incoming value wins, any other key keeps its value. */
  lemma {:induction false} MergeLookup(existing: Metadata, incoming: Metadata, key: string)
    requires UniqueKeys(incoming)
    ensures Lookup(MergeMetadata(existing, incoming), key) ==
              if Lookup(incoming, key).Some? then Lookup(incoming, key) else Lookup(existing, key)
  {
    if incoming != [] {
      var front, last := incoming[..|incoming| - 1], incoming[|incoming| - 1];
      MergeLookup(existing, front, key);
      PutLookup(MergeMetadata(existing, front), last.0, last.1, key);
      LookupLast(front, last, key);
      assert incoming == front + [last];
    }
  }

  lemma {:induction false} LookupLast(front: Metadata, last: (string, string), key: string)
    requires UniqueKeys(front + [last])
    ensures Lookup(front + [last], key) == if last.0 == key then Some(last.1) else Lookup(front, key)
  {
    if front != [] {
      assert (front + [last])[1..] == front[1..] + [last];
      assert (front + [last])[0].0 != (front + [last])[|front|].0;
      LookupLast(front[1..], last, key);
    }
  }

  lemma {:induction false} PutAgain(m: Metadata, key: string, value: string)
    requires Lookup(m, key) == Some(value)
    ensures PutEntry(m, key, value) == m
  {
    if m[0].0 != key {
      PutAgain(m[1..], key, value);
    }
  }

  lemma {:induction false} MergeKnown(m: Metadata, incoming: Metadata)
    requires UniqueKeys(incoming) && forall i | 0 <= i < |incoming| :: Lookup(m, incoming[i].0) == Some(incoming[i].1)
    ensures MergeMetadata(m, incoming) == m
  {
    if incoming != [] {
      MergeKnown(m, incoming[..|incoming| - 1]);
      PutAgain(m, incoming[|incoming| - 1].0, incoming[|incoming| - 1].1);
    }
  }

  lemma {:induction false} LookupAt(m: Metadata, i: nat)
    requires UniqueKeys(m) && i < |m|
    ensures Lookup(m, m[i].0) == Some(m[i].1)
  {
    if i > 0 {
      assert m[0].0 != m[i].0;
      LookupAt(m[1..], i - 1);
    }
  }

  /** Merging the same metadata twice is merging it once. */
  lemma MergeIdempotent(existing: Metadata, incoming: Metadata)
    requires UniqueKeys(incoming)
    ensures MergeMetadata(MergeMetadata(existing, incoming), incoming) == MergeMetadata(existing, incoming)
  {
    var merged := MergeMetadata(existing, incoming);
    forall i | 0 <= i < |incoming| ensures Lookup(merged, incoming[i].0) == Some(incoming[i].1) {
      LookupAt(incoming, i);
      MergeLookup(existing, incoming, incoming[i].0);
    }
    MergeKnown(merged, incoming);
  }

  // ---- what an upsert records ---------------------------------------------------------------------

  /** The document an upsert that queued work leaves behind: its new content, its merged metadata, one queued job. */
  lemma UpsertRecords(s: Store, org: string, input: Upsert, now: nat, key: string)
    requires StoreOk(s) && UniqueKeys(input.metadata) && UpsertDocument(s, org, input, now).1.Ok?
    requires UpsertDocument(s, org, input, now).1.value.enqueued
    ensures var (r, result) := UpsertDocument(s, org, input, now);
            var doc := result.value.id;
            && doc in r.documents && r.documents[doc].status.Queued? && result.value.status.Queued?
            && r.documents[doc].content == input.content && r.documents[doc].hash == input.hash
            && r.documents[doc].customId == input.customId && r.documents[doc].tags == input.tags
            && r.documents[doc].attributes == input.attributes && r.documents[doc].org == org
            && (Lookup(input.metadata, key).Some? ==>
                  Lookup(r.documents[doc].metadata, key) == Lookup(input.metadata, key))
            && (exists j :: j in r.jobs && r.jobs[j] == NewJob(doc, DocumentJob, r.documents[doc].revision, now))
  {
    UpsertShape(s, org, input, now);
    match OutcomeOf(s, org, input)
    case Rewriting(doc) =>
      RequeueShape(s, doc, input, now);
      MergeLookup(s.documents[doc].metadata, input.metadata, key);
      ReissuedRecords(s, doc, input, now);
    case Creation =>
      InsertShape(s, org, input, now);
      CreatedRecords(s, org, input, now);
    case _ =>
  }

  /** Every other document, all chunks, and, unless work was queued, all jobs stay as they were. */
  lemma UpsertTouchesOneDocument(s: Store, org: string, input: Upsert, now: nat, d: DocId)
    requires StoreOk(s) && d in s.documents
    ensures var (r, result) := UpsertDocument(s, org, input, now);
            && result.Ok?
            && (!result.value.enqueued ==> r.jobs == s.jobs)
            && d in r.documents && (d != result.value.id ==> r.documents[d] == s.documents[d])
            && d in r.chunks && r.chunks[d] == s.chunks[d]
  {
    UpsertShape(s, org, input, now);
    match OutcomeOf(s, org, input)
    case Rewriting(doc) =>
      RequeueShape(s, doc, input, now);
      ReissuedRecords(s, doc, input, now);
    case Creation =>
      InsertShape(s, org, input, now);
      CreatedRecords(s, org, input, now);
    case _ =>
  }

  /** Rewriting a document fails the memory job that its former revision has in progress or queued, as stale, and leaves
      every other job alone. */
  lemma RewritingSupersedes(s: Store, org: string, input: Upsert, now: nat, j: JobId)
    requires StoreOk(s) && OutcomeOf(s, org, input).Rewriting? && j in s.jobs
    ensures var doc, r := OutcomeOf(s, org, input).doc, UpsertDocument(s, org, input, now).0;
            && j in r.jobs
            && if s.jobs[j].doc == doc && Active(s.jobs[j].status)
               then r.jobs[j] == s.jobs[j].(status := Failed, errorKind := Some("stale_revision"))
               else r.jobs[j] == s.jobs[j]
  {
    UpsertShape(s, org, input, now);
    assert JobOk(s, j);
  }

  lemma ReissuedRecords(s: Store, doc: DocId, input: Upsert, now: nat)
    requires Keys(s) && doc in s.documents
    ensures var r := Reissued(s, doc, input, now);
            && s.nextId in r.jobs && r.jobs[s.nextId] == NewJob(doc, DocumentJob, s.documents[doc].revision + 1, now)
            && r.documents == s.documents[doc := Document(
                 s.documents[doc].org, input.content, input.hash, input.customId, input.tags,
                 MergeMetadata(s.documents[doc].metadata, input.metadata), input.attributes, Queued,
                 s.documents[doc].revision + 1)]
            && r.chunks == s.chunks
  {
  }

  lemma CreatedRecords(s: Store, org: string, input: Upsert, now: nat)
    requires Keys(s)
    ensures var r := Created(s, org, input, now);
            && s.nextId + 1 in r.jobs && r.jobs[s.nextId + 1] == NewJob(s.nextId, DocumentJob, 1, now)
            && r.documents == s.documents[s.nextId := Document(
                 org, input.content, input.hash, input.customId, input.tags, input.metadata, input.attributes,
                 Queued, 1)]
            && r.chunks == s.chunks[s.nextId := []] && r.nextId == s.nextId + 2
  {
  }

  // ---- repeating an upsert ------------------------------------------------------------------------

  /** The oldest match does not change when all older documents keep their identity. */
  lemma {:induction false} FindSame(s: Store, r: Store, org: string, input: Upsert, n: nat)
    requires forall d: DocId | d < n ::
               (d in s.documents && Identifies(s.documents[d], org, input))
               <==> (d in r.documents && Identifies(r.documents[d], org, input))
    ensures FindExisting(r, org, input, n) == FindExisting(s, org, input, n)
  {
    if n > 0 { FindSame(s, r, org, input, n - 1); }
  }

  lemma {:induction false} FindFirst(s: Store, org: string, input: Upsert, doc: DocId, n: nat)
    requires doc < n && doc in s.documents && Identifies(s.documents[doc], org, input)
    requires forall d: DocId | d < doc :: !(d in s.documents && Identifies(s.documents[d], org, input))
    ensures FindExisting(s, org, input, n) == Some(doc)
  {
  }

  /** A rewritten document is found again, and its queued job shields it. */
  lemma RepeatAfterRewriting(s: Store, org: string, input: Upsert, now: nat)
    requires StoreOk(s) && OutcomeOf(s, org, input).Rewriting?
    ensures OutcomeOf(Upserted(s, org, input, now), org, input) == Nothing
  {
    var doc := OutcomeOf(s, org, input).doc;
    var r := Reissued(s, doc, input, now);
    ReissuedRecords(s, doc, input, now);
    FindFirst(r, org, input, doc, r.nextId);
    assert DocumentActive(r, doc);
  }

  lemma RepeatAfterCreation(s: Store, org: string, input: Upsert, now: nat)
    requires StoreOk(s) && OutcomeOf(s, org, input).Creation?
    ensures OutcomeOf(Upserted(s, org, input, now), org, input) == if input.customId.Some? then Nothing else Creation
  {
    var r := Created(s, org, input, now);
    CreatedRecords(s, org, input, now);
    if input.customId.Some? {
      FindFirst(r, org, input, s.nextId, r.nextId);
      assert DocumentActive(r, s.nextId);
    }
  }

  lemma RepeatAfterRetagging(s: Store, org: string, input: Upsert, now: nat)
    requires StoreOk(s) && OutcomeOf(s, org, input).Retag? && UniqueKeys(input.metadata)
    ensures var r := Upserted(s, org, input, now);
            OutcomeOf(r, org, input) == Nothing || OutcomeOf(r, org, input) == OutcomeOf(s, org, input)
  {
    var doc := OutcomeOf(s, org, input).doc;
    var r := Upserted(s, org, input, now);
    FindSame(s, r, org, input, s.nextId);
    MergeIdempotent(s.documents[doc].metadata, input.metadata);
    assert DocumentActive(r, doc) <==> DocumentActive(s, doc);
  }

  /** Repeating an upsert at once changes nothing, unless it just created a document without a custom id:
      then the repetition, which only looks for finished duplicates, creates another. */
  lemma RepeatedUpsertIff(s: Store, org: string, input: Upsert, now: nat, later: nat)
    requires StoreOk(s) && UniqueKeys(input.metadata)
    ensures var once := Upserted(s, org, input, now);
            Upserted(once, org, input, later) == once <==> !(OutcomeOf(s, org, input).Creation? && input.customId.None?)
  {
    var once := Upserted(s, org, input, now);
    match OutcomeOf(s, org, input)
    case Nothing =>
    case Rewriting(_) => RepeatAfterRewriting(s, org, input, now);
    case Creation =>
      RepeatAfterCreation(s, org, input, now);
      assert Created(once, org, input, later).nextId > once.nextId;
    case Retag(doc, metadata) =>
      RepeatAfterRetagging(s, org, input, now);
      assert once.documents[doc := once.documents[doc].(metadata := metadata)] == once.documents;
  }

  // ---- which document an upsert is about ----------------------------------------------------------

  /** Nonblank tags count as often as they occur, in any order; blank ones do not count. */
  lemma {:induction false} TagCounts(tags: seq<string>, tag: string)
    ensures NonBlankTags(tags)[tag] == if Text.IsBlank(tag) then 0 else multiset(tags)[tag]
  {
    if tags != [] {
      TagCounts(tags[1..], tag);
      assert tags == [tags[0]] + tags[1..];
    }
  }

  /** The same nonblank tags, each as often. */
  ghost predicate SameTags(a: seq<string>, b: seq<string>) {
    forall tag | !Text.IsBlank(tag) :: multiset(a)[tag] == multiset(b)[tag]
  }

  lemma SameTagsIff(a: seq<string>, b: seq<string>)
    ensures NonBlankTags(a) == NonBlankTags(b) <==> SameTags(a, b)
  {
    if NonBlankTags(a) == NonBlankTags(b) {
      forall tag | !Text.IsBlank(tag) ensures multiset(a)[tag] == multiset(b)[tag] {
        TagCounts(a, tag);
        TagCounts(b, tag);
      }
    }
    if SameTags(a, b) {
      forall tag ensures NonBlankTags(a)[tag] == NonBlankTags(b)[tag] {
        TagCounts(a, tag);
        TagCounts(b, tag);
      }
    }
  }

  /** A metadata key that does not take part in the comparison. */
  predicate Internal(key: string) {
    (|key| >= 3 && key[0] == 's' && key[1] == 'm' && key[2] == '_') || key == "commonQuestions"
  }

  lemma InternalIff(key: string)
    ensures Internal(key) <==> "sm_" <= key || key == "commonQuestions"
  {
    assert |"sm_"| == 3 && "sm_"[0] == 's' && "sm_"[1] == 'm' && "sm_"[2] == '_';
  }

  lemma ComparableOne(entry: (string, string))
    ensures Comparable([entry]) == if Internal(entry.0) then [] else [entry]
  {
    InternalIff(entry.0);
    assert [entry][1..] == [];
  }

  lemma {:induction false} ComparableConcat(front: Metadata, rest: Metadata)
    ensures Comparable(front + rest) == Comparable(front) + Comparable(rest)
  {
    if front == [] {
      assert front + rest == rest;
    } else {
      assert (front + rest)[1..] == front[1..] + rest;
      ComparableConcat(front[1..], rest);
    }
  }

  /** Exactly the entries with an internal key are left out of the comparison, wherever they stand. */
  lemma ComparableEntry(front: Metadata, entry: (string, string), rest: Metadata)
    ensures Comparable(front + [entry] + rest)
            == Comparable(front) + (if Internal(entry.0) then [] else [entry]) + Comparable(rest)
  {
    ComparableConcat(front + [entry], rest);
    ComparableConcat(front, [entry]);
    ComparableOne(entry);
  }

  /** The document that an upsert with a custom id names, or of which one without repeats the finished content. */
  ghost predicate Repeats(d: Document, org: string, input: Upsert) {
    && d.org == org
    && (input.customId.Some? ==> d.customId == input.customId && d.tags == input.tags)
    && (input.customId.None? ==>
          d.hash == input.hash && d.status.Done? && SameTags(d.tags, input.tags)
          && Comparable(d.metadata) == Comparable(input.metadata))
  }

  /** An upsert creates a document exactly when no document of the organization is named or repeated by it. */
  lemma CreatesIff(s: Store, org: string, input: Upsert, now: nat)
    requires StoreOk(s)
    ensures (exists d :: d in UpsertDocument(s, org, input, now).0.documents && d !in s.documents)
            <==> forall d | d in s.documents :: !Repeats(s.documents[d], org, input)
  {
    UpsertShape(s, org, input, now);
    forall d | d in s.documents
      ensures Identifies(s.documents[d], org, input) <==> Repeats(s.documents[d], org, input)
    {
      SameTagsIff(s.documents[d].tags, input.tags);
    }
    match OutcomeOf(s, org, input)
    case Rewriting(doc) => ReissuedRecords(s, doc, input, now);
    case Creation =>
      CreatedRecords(s, org, input, now);
      assert s.nextId in Created(s, org, input, now).documents && s.nextId !in s.documents;
    case _ =>
  }

  /** An upsert that differs from what is stored by one internal metadata entry changes nothing. */
  lemma InternalEntryChangesNothing(s: Store, org: string, input: Upsert, doc: DocId, front: Metadata,
                                    entry: (string, string), rest: Metadata, now: nat)
    requires StoreOk(s) && FindExisting(s, org, input, s.nextId) == Some(doc)
    requires s.documents[doc].hash == input.hash && !s.documents[doc].status.Failed? && Internal(entry.0)
    requires s.documents[doc].metadata == front + rest && input.metadata == front + [entry] + rest
    ensures UpsertDocument(s, org, input, now) == (s, Ok(UpsertResult(doc, s.documents[doc].status, false)))
  {
    InternalEntryIsEquivalent(front, entry, rest);
  }

  lemma InternalEntryIsEquivalent(front: Metadata, entry: (string, string), rest: Metadata)
    requires Internal(entry.0)
    ensures MetadataEquivalent(front + rest, front + [entry] + rest)
  {
    ComparableEntry(front, entry, rest);
    ComparableConcat(front, rest);
  }
}
