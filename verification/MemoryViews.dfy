/** What readers of the memory tables may rely on: search visibility, profiles, and the dedup map. */
module MemoryViews {
  import opened Options
  import opened Memories
  import opened MemoryInvariants
  import opened Sequences

  // ---- visibility ---------------------------------------------------------------------------------

  datatype Visibility = Visibility(
    includeForgotten: bool, includeExpired: bool, includeSuperseded: bool, includeInactiveEmbeddings: bool)

  const DefaultVisibility := Visibility(false, false, false, false)

  /** The WHERE clause shared by the memory searches. */
  predicate Visible(t: Tables, id: Id, v: Visibility, now: nat)
    requires id in t.memories && id in t.active
  {
    var m := t.memories[id];
    && (t.active[id] || v.includeInactiveEmbeddings)
    && (m.isLatest || v.includeSuperseded)
    && (!m.isForgotten || v.includeForgotten)
    && (!Expired(m, now) || v.includeExpired)
  }

  /** A row is current, superseded or forgotten, and each state needs its own set of switches. */
  lemma VisibilityByState(norm: Normalizer, t: Tables, id: Id, v: Visibility, now: nat)
    requires Inv(norm, t, now) && id in t.memories
    ensures var m := t.memories[id];
            Visible(t, id, v, now) <==>
              if m.isForgotten then
                v.includeForgotten && v.includeExpired && v.includeSuperseded && v.includeInactiveEmbeddings
              else if Updated(t, id) then
                v.includeSuperseded && v.includeInactiveEmbeddings && (v.includeExpired || !Expired(m, now))
              else
                v.includeExpired || !Expired(m, now)
  {
    assert FlagsRow(t, id);
  }

  /** The version-4 search sets include_forgotten alone, which shows exactly the default rows. */
  lemma IncludeForgottenAloneShowsNothingMore(norm: Normalizer, t: Tables, id: Id, now: nat)
    requires Inv(norm, t, now) && id in t.memories
    ensures Visible(t, id, DefaultVisibility.(includeForgotten := true), now)
        <==> Visible(t, id, DefaultVisibility, now)
  {
    VisibilityByState(norm, t, id, DefaultVisibility.(includeForgotten := true), now);
    VisibilityByState(norm, t, id, DefaultVisibility, now);
  }

  // ---- profiles -----------------------------------------------------------------------------------

  /** deduplicate_memories on rows given as (id, content). */
  function Deduplicate(norm: Normalizer, rows: seq<(Id, string)>, limit: nat, seen: set<string>): seq<(Id, string)> {
    if rows == [] || limit == 0 then []
    else
      var key := norm(rows[0].1);
      if key == "" || key in seen then Deduplicate(norm, rows[1..], limit, seen)
      else [rows[0]] + Deduplicate(norm, rows[1..], limit - 1, seen + {key})
  }

  method DeduplicateMemories(norm: Normalizer, rows: seq<(Id, string)>, limit: nat, excluded: set<string>)
    returns (result: seq<(Id, string)>)
    ensures result == Deduplicate(norm, rows, limit, excluded)
  {
    var seen := excluded;
    result := [];
    var i := 0;
    while i < |rows| && |result| < limit
      invariant i <= |rows| && |result| <= limit
      invariant Deduplicate(norm, rows, limit, excluded)
                == result + Deduplicate(norm, rows[i..], limit - |result|, seen)
    {
      var key := norm(rows[i].1);
      if key != "" && key !in seen {
        seen := seen + {key};
        result := result + [rows[i]];
      }
      i := i + 1;
    }
  }

  function NonBlank(norm: Normalizer, rows: seq<(Id, string)>): seq<(Id, string)> {
    if rows == [] then []
    else (if norm(rows[0].1) == "" then [] else [rows[0]]) + NonBlank(norm, rows[1..])
  }

  ghost predicate DistinctContent(norm: Normalizer, rows: seq<(Id, string)>) {
    forall i, j | 0 <= i < j < |rows| :: norm(rows[i].1) != norm(rows[j].1)
  }

  lemma {:induction false} DeduplicateDistinct(norm: Normalizer, rows: seq<(Id, string)>, limit: nat, seen: set<string>)
    requires DistinctContent(norm, rows)
    requires forall i | 0 <= i < |rows| :: norm(rows[i].1) !in seen
    ensures Deduplicate(norm, rows, limit, seen) == Take(NonBlank(norm, rows), limit)
  {
    if rows != [] && limit > 0 {
      var key := norm(rows[0].1);
      if key == "" {
        DeduplicateDistinct(norm, rows[1..], limit, seen);
      } else {
        DeduplicateDistinct(norm, rows[1..], limit - 1, seen + {key});
      }
    }
  }

  /** The rows of a profile query, in whatever order and however many: distinct ids meeting the WHERE clause. */
  ghost predicate ProfileRows(t: Tables, org: string, container: string, isStatic: bool, rows: seq<(Id, string)>) {
    && (forall i | 0 <= i < |rows| ::
          && IsActive(t, org, container, rows[i].0) && t.memories[rows[i].0].isStatic == isStatic
          && rows[i].1 == t.memories[rows[i].0].content)
    && (forall i, j | 0 <= i < j < |rows| :: rows[i].0 != rows[j].0)
  }

  function Keys(norm: Normalizer, rows: seq<(Id, string)>): set<string> {
    set row | row in rows :: norm(row.1)
  }

  lemma ProfileRowsDistinct(norm: Normalizer, t: Tables, org: string, container: string, isStatic: bool,
                            rows: seq<(Id, string)>)
    requires UniqueContent(norm, t) && ProfileRows(t, org, container, isStatic, rows)
    ensures DistinctContent(norm, rows)
  {
    forall i, j | 0 <= i < j < |rows| ensures norm(rows[i].1) != norm(rows[j].1) {
      assert IsActive(t, org, container, rows[i].0) && IsActive(t, org, container, rows[j].0);
    }
  }

  lemma {:induction false} DeduplicateIsSubset(norm: Normalizer, rows: seq<(Id, string)>, limit: nat, seen: set<string>)
    ensures forall row | row in Deduplicate(norm, rows, limit, seen) ::
              row in rows && norm(row.1) !in seen && norm(row.1) != ""
  {
    if rows != [] && limit > 0 {
      var key := norm(rows[0].1);
      DeduplicateIsSubset(norm, rows[1..], limit, seen);
      DeduplicateIsSubset(norm, rows[1..], limit - 1, seen + {key});
    }
  }

  /**
   Deduplication drops nothing but rows that normalize to the empty string, in the static profile and, although
   the static contents are excluded there, in the dynamic one; and the two profiles share no content.
   */
  lemma ProfilesAreExact(norm: Normalizer, t: Tables, now: nat, org: string, container: string,
                         staticRows: seq<(Id, string)>, dynamicRows: seq<(Id, string)>)
    requires Inv(norm, t, now)
    requires ProfileRows(t, org, container, true, staticRows) && ProfileRows(t, org, container, false, dynamicRows)
    ensures var statics := Deduplicate(norm, staticRows, 100, {});
            var dynamics := Deduplicate(norm, dynamicRows, 100, Keys(norm, statics));
            && statics == Take(NonBlank(norm, staticRows), 100)
            && dynamics == Take(NonBlank(norm, dynamicRows), 100)
            && (forall s, d | s in statics && d in dynamics :: norm(s.1) != norm(d.1) && s.0 != d.0)
  {
    ProfileRowsDistinct(norm, t, org, container, true, staticRows);
    ProfileRowsDistinct(norm, t, org, container, false, dynamicRows);
    var statics := Deduplicate(norm, staticRows, 100, {});
    DeduplicateIsSubset(norm, staticRows, 100, {});
    forall i | 0 <= i < |dynamicRows| ensures norm(dynamicRows[i].1) !in Keys(norm, statics) {
      forall s | s in statics ensures norm(s.1) != norm(dynamicRows[i].1) {
        var k :| 0 <= k < |staticRows| && staticRows[k] == s;
        assert IsActive(t, org, container, staticRows[k].0) && IsActive(t, org, container, dynamicRows[i].0);
      }
    }
    DeduplicateDistinct(norm, staticRows, 100, {});
    DeduplicateDistinct(norm, dynamicRows, 100, Keys(norm, statics));
    DeduplicateIsSubset(norm, dynamicRows, 100, Keys(norm, statics));
    forall s, d | s in statics && d in Deduplicate(norm, dynamicRows, 100, Keys(norm, statics))
      ensures norm(s.1) != norm(d.1) && s.0 != d.0
    {
      var k :| 0 <= k < |staticRows| && staticRows[k] == s;
      var i :| 0 <= i < |dynamicRows| && dynamicRows[i] == d;
      assert norm(s.1) in Keys(norm, statics);
    }
  }

  // ---- the dedup map ------------------------------------------------------------------------------

  /** Whatever order the active rows arrive in, the dedup map of a reachable store is the same. */
  lemma IndexIgnoresOrder(norm: Normalizer, t: Tables, src: Source, now: nat, rows: seq<(Id, string)>)
    requires Inv(norm, t, now)
    requires forall row :: row in rows <==>
               IsActive(t, src.org, src.container, row.0) && row.1 == t.memories[row.0].content
    ensures IndexByContent(norm, rows) == Begin(norm, t, src).exact
  {
    var own := ActiveRows(t, src.org, src.container, t.nextId);
    ActiveRowsExact(t, src.org, src.container, t.nextId);
    IndexCovers(norm, rows);
    IndexCovers(norm, own);
    var a, b := IndexByContent(norm, rows), IndexByContent(norm, own);
    forall key ensures key in a <==> key in b {
      if key in a {
        var row :| row in rows && row.0 == a[key] && norm(row.1) == key;
        assert row in own;
      }
      if key in b {
        var row :| row in own && row.0 == b[key] && norm(row.1) == key;
        assert row in rows;
      }
    }
    forall key | key in a ensures a[key] == b[key] {
      var row :| row in rows && row.0 == a[key] && norm(row.1) == key;
      var row' :| row' in own && row'.0 == b[key] && norm(row'.1) == key;
      assert IsActive(t, src.org, src.container, row.0) && IsActive(t, src.org, src.container, row'.0);
    }
  }
}
