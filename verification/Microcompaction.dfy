/** Replacing old large observation previews by stubs: agent_driver/context/microcompaction.py. */
module Microcompaction {
  import opened Prelude
  import opened TokenEstimation

  datatype Provenance = Provenance(source: Option<string>, toolCallId: Option<string>)

  /** What compaction records on a row it rewrites. */
  datatype Note = Note(originalLength: nat, replacementLength: nat)

  /** One observation; `preview` is None when it is missing or not a string, `provenance` when it is no map. */
  datatype Row = Row(
    observationId: string,
    preview: Option<string>,
    provenance: Option<Provenance>,
    truncated: bool,
    note: Option<Note>)

  datatype Audit = Audit(observationId: string, toolCallId: string, saved: int)

  datatype Outcome = Outcome(rows: seq<Row>, audit: seq<Audit>, bytesSaved: int, tokensSaved: int)

  function SourceOf(r: Row): string {
    if r.provenance.Some? && r.provenance.value.source.Some? then r.provenance.value.source.value
    else "observation"
  }

  function ToolCallIdOf(r: Row): string {
    if r.provenance.Some? && r.provenance.value.toolCallId.Some? then r.provenance.value.toolCallId.value
    else ""
  }

  /** The stub that replaces a preview. */
  function StubOf(r: Row): string {
    "[" + SourceOf(r) + "] output compacted; see artifact/context references for details."
  }

  function PreviewChars(r: Row): int {
    match r.preview
    case None => 0
    case Some(text) => |text|
  }

  /** A preview over the limit that the stub makes shorter. */
  predicate Shrinks(r: Row, maxPreview: int) {
    r.preview.Some? && |r.preview.value| > maxPreview && |r.preview.value| > |StubOf(r)|
  }

  function CompactRow(r: Row, maxPreview: int): Row {
    if Shrinks(r, maxPreview)
    then r.(preview := Some(StubOf(r)), truncated := true, note := Some(Note(|r.preview.value|, |StubOf(r)|)))
    else r
  }

  function KeepFrom(n: nat, preserveRecent: int): nat {
    Max(0, n - Max(0, preserveRecent))
  }

  /** The first `k` rows compacted, the rest as they are. */
  function CompactFirst(rows: seq<Row>, k: nat, maxPreview: int): seq<Row> {
    seq(|rows|, i requires 0 <= i < |rows| => if i < k then CompactRow(rows[i], maxPreview) else rows[i])
  }

  function Compacted(rows: seq<Row>, preserveRecent: int, maxPreview: int): seq<Row> {
    CompactFirst(rows, KeepFrom(|rows|, preserveRecent), maxPreview)
  }

  function AuditOf(r: Row, maxPreview: int): seq<Audit> {
    if Shrinks(r, maxPreview)
    then [Audit(r.observationId, ToolCallIdOf(r), |r.preview.value| - |StubOf(r)|)] else []
  }

  /** One audit entry per rewritten row, in row order. */
  function AuditsOf(rows: seq<Row>, maxPreview: int): seq<Audit> {
    if rows == [] then []
    else AuditsOf(rows[..|rows| - 1], maxPreview) + AuditOf(rows[|rows| - 1], maxPreview)
  }

  function SavedOf(a: Audit): int {
    a.saved
  }

  method CompactObservationRow(row: Row, maxPreview: int) returns (r: Row, audit: Option<Audit>, saved: int)
    ensures r == CompactRow(row, maxPreview)
    ensures AuditOf(row, maxPreview) == if audit.Some? then [audit.value] else []
    ensures audit.Some? ==> audit.value.saved == saved
    ensures saved == PreviewChars(row) - PreviewChars(r)
  {
    if row.preview.None? || |row.preview.value| <= maxPreview {
      return row, None, 0;
    }
    var replacement := StubOf(row);
    var oldLen, newLen := |row.preview.value|, |replacement|;
    if oldLen <= newLen {
      return row, None, 0;
    }
    r := row.(preview := Some(replacement), truncated := true, note := Some(Note(oldLen, newLen)));
    saved := oldLen - newLen;
    audit := Some(Audit(r.observationId, ToolCallIdOf(r), saved));
  }

  method MicrocompactObservations(observations: seq<Row>, preserveRecent: int, maxPreview: int)
    returns (r: Outcome)
    ensures r.rows == Compacted(observations, preserveRecent, maxPreview)
    ensures r.audit == AuditsOf(observations[..KeepFrom(|observations|, preserveRecent)], maxPreview)
    ensures r.bytesSaved == SumOf(SavedOf, r.audit)
    ensures r.tokensSaved == Max(0, EstimateTokens(r.bytesSaved, DEFAULT_RATIO))
  {
    var compacted := new Row[|observations|](i requires 0 <= i < |observations| => observations[i]);
    assert compacted[..] == CompactFirst(observations, 0, maxPreview);
    var keepFrom := KeepFrom(|observations|, preserveRecent);
    var audit: seq<Audit> := [];
    var bytesSaved := 0;
    for index := 0 to keepFrom
      invariant compacted[..] == CompactFirst(observations, index, maxPreview)
      invariant audit == AuditsOf(observations[..index], maxPreview)
      invariant bytesSaved == SumOf(SavedOf, audit)
    {
      CompactNext(observations, index, maxPreview);
      assert compacted[index] == compacted[..][index] == observations[index];
      var row, item, saved := CompactObservationRow(compacted[index], maxPreview);
      compacted[index] := row;
      if item.Some? {
        bytesSaved := bytesSaved + saved;
        audit := audit + [item.value];
      }
    }
    r := Outcome(compacted[..], audit, bytesSaved, Max(0, EstimateTokens(bytesSaved, DEFAULT_RATIO)));
  }

  // ---------------------------------------------------------------- conservation

  lemma CompactNext(rows: seq<Row>, k: nat, maxPreview: int)
    requires k < |rows|
    ensures CompactFirst(rows, k + 1, maxPreview) ==
            CompactFirst(rows, k, maxPreview)[k := CompactRow(rows[k], maxPreview)]
    ensures AuditsOf(rows[..k + 1], maxPreview) == AuditsOf(rows[..k], maxPreview) + AuditOf(rows[k], maxPreview)
  {
    assert rows[..k + 1][..k] == rows[..k];
  }

  lemma RowSaving(r: Row, maxPreview: int)
    ensures SumOf(SavedOf, AuditOf(r, maxPreview)) == PreviewChars(r) - PreviewChars(CompactRow(r, maxPreview))
  {
    var audit := AuditOf(r, maxPreview);
    assert audit != [] ==> audit[..0] == [];
  }

  lemma {:induction false} SavingsOfPrefix(rows: seq<Row>, k: nat, maxPreview: int)
    requires k <= |rows|
    ensures SumOf(PreviewChars, rows) ==
            SumOf(PreviewChars, CompactFirst(rows, k, maxPreview)) + SumOf(SavedOf, AuditsOf(rows[..k], maxPreview))
  {
    if k == 0 {
      assert CompactFirst(rows, 0, maxPreview) == rows;
    } else {
      SavingsOfPrefix(rows, k - 1, maxPreview);
      CompactNext(rows, k - 1, maxPreview);
      SumUpdate(PreviewChars, CompactFirst(rows, k - 1, maxPreview), k - 1, CompactRow(rows[k - 1], maxPreview));
      SumConcat(SavedOf, AuditsOf(rows[..k - 1], maxPreview), AuditOf(rows[k - 1], maxPreview));
      RowSaving(rows[k - 1], maxPreview);
    }
  }

  lemma {:induction false} AuditsPositive(rows: seq<Row>, maxPreview: int)
    ensures forall i :: 0 <= i < |AuditsOf(rows, maxPreview)| ==> AuditsOf(rows, maxPreview)[i].saved > 0
  {
    if rows != [] {
      AuditsPositive(rows[..|rows| - 1], maxPreview);
    }
  }

  /** Every character is accounted for: previews before are previews after plus the audited savings, each positive. */
  lemma CompactionConserves(rows: seq<Row>, preserveRecent: int, maxPreview: int)
    ensures var audit := AuditsOf(rows[..KeepFrom(|rows|, preserveRecent)], maxPreview);
            && SumOf(PreviewChars, rows) ==
               SumOf(PreviewChars, Compacted(rows, preserveRecent, maxPreview)) + SumOf(SavedOf, audit)
            && (forall i :: 0 <= i < |audit| ==> audit[i].saved > 0)
  {
    var k := KeepFrom(|rows|, preserveRecent);
    SavingsOfPrefix(rows, k, maxPreview);
    AuditsPositive(rows[..k], maxPreview);
  }

  /** The recent rows are untouched; an older row keeps its identity and ends within the limit or the stub's length. */
  lemma CompactionBounds(rows: seq<Row>, preserveRecent: int, maxPreview: int, i: nat)
    requires i < |rows|
    ensures var r := Compacted(rows, preserveRecent, maxPreview)[i];
            && (i >= |rows| - Max(0, preserveRecent) ==> r == rows[i])
            && r.observationId == rows[i].observationId && r.provenance == rows[i].provenance
            && (i < |rows| - Max(0, preserveRecent) ==>
                  PreviewChars(r) <= Max(0, Max(maxPreview, |StubOf(rows[i])|)))
            && (r != rows[i] ==> r.preview == Some(StubOf(rows[i])) && r.truncated
                                 && PreviewChars(rows[i]) > Max(maxPreview, PreviewChars(r)))
  {
  }

  /** The source a stub names: the provenance's, or "observation" where it has none. */
  ghost predicate ComesFrom(r: Row, source: string) {
    if r.provenance.Some? && r.provenance.value.source.Some? then source == r.provenance.value.source.value
    else source == "observation"
  }

  /** A row that is rewritten: its preview is over the limit and longer than the stub with its source. */
  ghost predicate IsRewritten(r: Row, maxPreview: int, stub: string) {
    r.preview.Some? && |r.preview.value| > maxPreview && |r.preview.value| > |stub|
  }

  /** What happens to one row: the stub in place of the preview and a note of both lengths, or nothing. */
  lemma CompactRowMeans(r: Row, maxPreview: int, source: string)
    requires ComesFrom(r, source)
    ensures var stub := "[" + source + "] output compacted; see artifact/context references for details.";
            CompactRow(r, maxPreview) ==
            if IsRewritten(r, maxPreview, stub)
            then Row(r.observationId, Some(stub), r.provenance, true, Some(Note(|r.preview.value|, |stub|)))
            else r
  {
  }

  /** The call a row answers, or nothing. */
  ghost predicate Answers(r: Row, toolCallId: string) {
    if r.provenance.Some? && r.provenance.value.toolCallId.Some? then toolCallId == r.provenance.value.toolCallId.value
    else toolCallId == ""
  }

  /** Entry `a` is about row `r`: its ids, and the length its preview loses to the stub. */
  ghost predicate IsAbout(a: Audit, r: Row, maxPreview: int) {
    && IsRewritten(r, maxPreview, StubOf(r))
    && a.observationId == r.observationId && Answers(r, a.toolCallId)
    && a.saved == |r.preview.value| - |StubOf(r)|
  }

  lemma {:induction false} AuditsExact(rows: seq<Row>, k: nat, maxPreview: int, a: Audit)
    requires k <= |rows|
    ensures a in AuditsOf(rows[..k], maxPreview) <==> exists i :: 0 <= i < k && IsAbout(a, rows[i], maxPreview)
  {
    if k > 0 {
      AuditsExact(rows, k - 1, maxPreview, a);
      assert rows[..k][..k - 1] == rows[..k - 1];
      AuditOfExact(rows[k - 1], maxPreview, a);
    }
  }

  lemma AuditOfExact(r: Row, maxPreview: int, a: Audit)
    ensures a in AuditOf(r, maxPreview) <==> IsAbout(a, r, maxPreview)
  {
  }

  /** The audit is sound and complete: one of its entries is about each rewritten row before the recent ones. */
  lemma CompactionAuditExact(rows: seq<Row>, preserveRecent: int, maxPreview: int, a: Audit)
    ensures a in AuditsOf(rows[..KeepFrom(|rows|, preserveRecent)], maxPreview) <==>
            exists i :: 0 <= i < |rows| && i < |rows| - Max(0, preserveRecent) && IsAbout(a, rows[i], maxPreview)
  {
    AuditsExact(rows, KeepFrom(|rows|, preserveRecent), maxPreview, a);
  }

  // ---------------------------------------------------------------- repeated passes

  lemma RowIdempotent(r: Row, maxPreview: int)
    ensures !Shrinks(CompactRow(r, maxPreview), maxPreview)
  {
    assert StubOf(CompactRow(r, maxPreview)) == StubOf(r);
  }

  lemma {:induction false} NothingToAudit(rows: seq<Row>, maxPreview: int)
    requires forall i :: 0 <= i < |rows| ==> !Shrinks(rows[i], maxPreview)
    ensures AuditsOf(rows, maxPreview) == []
  {
    if rows != [] {
      NothingToAudit(rows[..|rows| - 1], maxPreview);
    }
  }

  /** A second pass changes nothing and saves nothing, even where the stub is itself over the limit. */
  lemma CompactionIdempotent(rows: seq<Row>, preserveRecent: int, maxPreview: int)
    ensures var once := Compacted(rows, preserveRecent, maxPreview);
            && Compacted(once, preserveRecent, maxPreview) == once
            && AuditsOf(once[..KeepFrom(|once|, preserveRecent)], maxPreview) == []
  {
    var once := Compacted(rows, preserveRecent, maxPreview);
    var k := KeepFrom(|rows|, preserveRecent);
    forall i | 0 <= i < k ensures !Shrinks(once[i], maxPreview) {
      RowIdempotent(rows[i], maxPreview);
    }
    NothingToAudit(once[..k], maxPreview);
  }

  /** Compacting in stages, with any windows, is compacting once with the smaller window. */
  lemma CompactionComposes(rows: seq<Row>, p: int, q: int, maxPreview: int)
    ensures Compacted(Compacted(rows, p, maxPreview), q, maxPreview) == Compacted(rows, Min(p, q), maxPreview)
  {
    forall i | 0 <= i < |rows|
      ensures Compacted(Compacted(rows, p, maxPreview), q, maxPreview)[i] == Compacted(rows, Min(p, q), maxPreview)[i]
    {
      RowIdempotent(rows[i], maxPreview);
    }
  }
}
