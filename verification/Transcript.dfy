/** Chat history and run ids: agent_driver/context/transcript.py. */
module Transcript {
  import opened Prelude

  datatype Row = Row(role: string, content: string)

  predicate IsUser(r: Row) {
    r.role == "user"
  }

  /** The number of user turns. */
  function UserTurns(rows: seq<Row>): nat {
    if rows == [] then 0
    else UserTurns(rows[..|rows| - 1]) + (if IsUser(rows[|rows| - 1]) then 1 else 0)
  }

  /** Row `i` is the user turn with `k` user turns before it. */
  predicate IsUserTurn(rows: seq<Row>, k: nat, i: nat) {
    i < |rows| && IsUser(rows[i]) && UserTurns(rows[..i]) == k
  }

  /** The first position of `id`, as `list.index` finds it. */
  function IndexOf(ids: seq<string>, id: string): (r: Option<nat>)
    ensures r.Some? ==> r.value < |ids| && ids[r.value] == id && forall j :: 0 <= j < r.value ==> ids[j] != id
    ensures r.None? <==> id !in ids
  {
    IndexFrom(ids, id, 0)
  }

  function IndexFrom(ids: seq<string>, id: string, i: nat): (r: Option<nat>)
    requires i <= |ids|
    ensures r.Some? ==> i <= r.value < |ids| && ids[r.value] == id && forall j :: i <= j < r.value ==> ids[j] != id
    ensures r.None? ==> forall j :: i <= j < |ids| ==> ids[j] != id
    decreases |ids| - i
  {
    if i == |ids| then None else if ids[i] == id then Some(i) else IndexFrom(ids, id, i + 1)
  }

  /** Where the user turn number `k` starts, or the end when there is none. */
  function CutIndex(rows: seq<Row>, k: nat): (cut: nat)
    ensures cut <= |rows|
    ensures if UserTurns(rows) > k then IsUserTurn(rows, k, cut) else cut == |rows|
  {
    if rows == [] then 0
    else
      var n := |rows| - 1;
      var cut := CutIndex(rows[..n], k);
      if cut < n then
        assert rows[..n][..cut] == rows[..cut];
        UserTurnsMonotone(rows, n, n + 1);
        assert rows[..n + 1] == rows;
        cut
      else if IsUser(rows[n]) && UserTurns(rows[..n]) == k then n
      else n + 1
  }

  lemma {:induction false} UserTurnsMonotone(rows: seq<Row>, i: nat, j: nat)
    requires i <= j <= |rows|
    ensures UserTurns(rows[..i]) <= UserTurns(rows[..j])
    ensures i < j && IsUser(rows[i]) ==> UserTurns(rows[..i]) < UserTurns(rows[..j])
  {
    if i < j {
      UserTurnsMonotone(rows, i, j - 1);
      assert rows[..j][..j - 1] == rows[..j - 1];
    }
  }

  /** At most one row is the user turn number `k`. */
  lemma UserTurnUnique(rows: seq<Row>, k: nat, i: nat, j: nat)
    requires IsUserTurn(rows, k, i) && IsUserTurn(rows, k, j)
    ensures i == j
  {
    if i < j {
      UserTurnsMonotone(rows, i, j);
    } else if j < i {
      UserTurnsMonotone(rows, j, i);
    }
  }

  datatype History = History(rows: seq<Row>, runIds: seq<string>)

  /** The history before run number `i`. */
  function CutAt(h: History, i: nat): History
    requires i <= |h.runIds|
  {
    History(h.rows[..CutIndex(h.rows, i)], h.runIds[..i])
  }

  /** What retrying from `retryFrom` leaves; an absent, empty or unknown id leaves everything. */
  function Truncated(h: History, retryFrom: Option<string>): History {
    if retryFrom.None? || retryFrom.value == "" then h
    else
      match IndexOf(h.runIds, retryFrom.value)
      case None => h
      case Some(i) => CutAt(h, i)
  }

  method TruncateTranscriptForRetry(h: History, retryFrom: Option<string>) returns (r: History)
    ensures r == Truncated(h, retryFrom)
  {
    if retryFrom.None? || retryFrom.value == "" {
      return h;
    }
    var found := IndexOf(h.runIds, retryFrom.value);
    if found.None? {
      return h;
    }
    var runIndex := found.value;
    var userSeen := 0;
    var cutIndex := |h.rows|;
    var index := 0;
    while index < |h.rows|
      invariant 0 <= index <= |h.rows|
      invariant userSeen == UserTurns(h.rows[..index]) <= runIndex
      invariant cutIndex == |h.rows|
    {
      assert h.rows[..index + 1][..index] == h.rows[..index];
      if IsUser(h.rows[index]) {
        if userSeen == runIndex {
          cutIndex := index;
          UserTurnsMonotone(h.rows, index, |h.rows|);
          assert h.rows[..|h.rows|] == h.rows;
          UserTurnUnique(h.rows, runIndex, index, CutIndex(h.rows, runIndex));
          break;
        }
        userSeen := userSeen + 1;
      }
      index := index + 1;
    }
    assert h.rows[..|h.rows|] == h.rows;
    r := History(h.rows[..cutIndex], h.runIds[..runIndex]);
  }

  /** The prompt and the answer next to it. */
  datatype Turn = Turn(user: Option<string>, assistant: Option<string>)

  const NO_TURN := Turn(None, None)

  function TurnAt(rows: seq<Row>, k: nat): Turn {
    var i := CutIndex(rows, k);
    if i == |rows| then NO_TURN
    else
      Turn(Some(rows[i].content),
           if i + 1 < |rows| && rows[i + 1].role == "assistant" then Some(rows[i + 1].content) else None)
  }

  function TurnText(h: History, runId: string): Turn {
    match IndexOf(h.runIds, runId)
    case None => NO_TURN
    case Some(k) => TurnAt(h.rows, k)
  }

  method TurnTextForRun(h: History, runId: string) returns (t: Turn)
    ensures t == TurnText(h, runId)
  {
    var found := IndexOf(h.runIds, runId);
    if found.None? {
      return NO_TURN;
    }
    var runIndex := found.value;
    var userSeen := -1;
    for index := 0 to |h.rows|
      invariant userSeen + 1 == UserTurns(h.rows[..index]) <= runIndex
    {
      assert h.rows[..index + 1][..index] == h.rows[..index];
      if IsUser(h.rows[index]) {
        userSeen := userSeen + 1;
        if userSeen == runIndex {
          UserTurnsMonotone(h.rows, index, |h.rows|);
          assert h.rows[..|h.rows|] == h.rows;
          UserTurnUnique(h.rows, runIndex, index, CutIndex(h.rows, runIndex));
          var assistantText := None;
          if index + 1 < |h.rows| && h.rows[index + 1].role == "assistant" {
            assistantText := Some(h.rows[index + 1].content);
          }
          return Turn(Some(h.rows[index].content), assistantText);
        }
      }
    }
    assert h.rows[..|h.rows|] == h.rows;
    t := NO_TURN;
  }

  // ---------------------------------------------------------------- what cut and lookup mean

  /** How many of the first `n` rows have that role. */
  function RoleCount(rows: seq<Row>, n: nat, role: string): nat
    requires n <= |rows|
  {
    if n == 0 then 0 else RoleCount(rows, n - 1, role) + (if rows[n - 1].role == role then 1 else 0)
  }

  lemma {:induction false} UserTurnsAreCounted(rows: seq<Row>, n: nat)
    requires n <= |rows|
    ensures UserTurns(rows[..n]) == RoleCount(rows, n, "user")
  {
    if n > 0 {
      UserTurnsAreCounted(rows, n - 1);
      assert rows[..n][..n - 1] == rows[..n - 1];
    }
  }

  /** Run `runId` is the `k`-th run of the history, first seen there. */
  ghost predicate IsRun(h: History, runId: string, k: nat) {
    k < |h.runIds| && h.runIds[k] == runId && forall j :: 0 <= j < k ==> h.runIds[j] != runId
  }

  /** Row `i` is a user row with `k` user rows before it. */
  ghost predicate IsPrompt(rows: seq<Row>, k: nat, i: nat) {
    i < |rows| && rows[i].role == "user" && RoleCount(rows, i, "user") == k
  }

  lemma PromptIsCut(rows: seq<Row>, k: nat, i: nat)
    requires IsPrompt(rows, k, i)
    ensures CutIndex(rows, k) == i
  {
    UserTurnsAreCounted(rows, i);
    UserTurnsMonotone(rows, i, |rows|);
    assert rows[..|rows|] == rows;
    UserTurnUnique(rows, k, i, CutIndex(rows, k));
  }

  lemma NoPromptNoCut(rows: seq<Row>, k: nat)
    requires RoleCount(rows, |rows|, "user") <= k
    ensures CutIndex(rows, k) == |rows|
  {
    UserTurnsAreCounted(rows, |rows|);
    assert rows[..|rows|] == rows;
  }

  lemma RunIsFound(h: History, runId: string, k: nat)
    requires IsRun(h, runId, k)
    ensures IndexOf(h.runIds, runId) == Some(k)
  {
  }

  /**
    * The turn of the `k`-th run: the text of the user row with `k` user rows before it, and of the row after
    * it when that is the assistant's. No such row, or no such run, gives nothing.
    */
  lemma TurnTextMeans(h: History, runId: string, k: nat, i: nat)
    ensures IsRun(h, runId, k) && IsPrompt(h.rows, k, i) ==>
      TurnText(h, runId) == Turn(
        Some(h.rows[i].content),
        if i + 1 < |h.rows| && h.rows[i + 1].role == "assistant" then Some(h.rows[i + 1].content) else None)
    ensures IsRun(h, runId, k) && RoleCount(h.rows, |h.rows|, "user") <= k ==> TurnText(h, runId) == Turn(None, None)
    ensures runId !in h.runIds ==> TurnText(h, runId) == Turn(None, None)
  {
    if IsRun(h, runId, k) {
      RunIsFound(h, runId, k);
      if IsPrompt(h.rows, k, i) {
        PromptIsCut(h.rows, k, i);
      }
      if RoleCount(h.rows, |h.rows|, "user") <= k {
        NoPromptNoCut(h.rows, k);
      }
    }
  }

  /** Retrying from the `k`-th run keeps the rows before its user row, or all of them, and the runs before it. */
  lemma RetryMeans(h: History, runId: string, k: nat, i: nat)
    requires runId != ""
    ensures IsRun(h, runId, k) && IsPrompt(h.rows, k, i) ==>
      Truncated(h, Some(runId)) == History(h.rows[..i], h.runIds[..k])
    ensures IsRun(h, runId, k) && RoleCount(h.rows, |h.rows|, "user") <= k ==>
      Truncated(h, Some(runId)) == History(h.rows, h.runIds[..k])
    ensures runId !in h.runIds ==> Truncated(h, Some(runId)) == h
    ensures Truncated(h, None) == Truncated(h, Some("")) == h
  {
    if IsRun(h, runId, k) {
      RunIsFound(h, runId, k);
      if IsPrompt(h.rows, k, i) {
        PromptIsCut(h.rows, k, i);
      }
      if RoleCount(h.rows, |h.rows|, "user") <= k {
        NoPromptNoCut(h.rows, k);
        assert h.rows[..|h.rows|] == h.rows;
      }
    }
  }

  // ---------------------------------------------------------------- the cut and the lookup agree

  lemma IndexInPrefix(ids: seq<string>, id: string, i: nat)
    requires i <= |ids|
    ensures var first := IndexOf(ids, id);
            IndexOf(ids[..i], id) == if first.Some? && first.value < i then first else None
  {
    var first := IndexOf(ids, id);
    if first.Some? && first.value < i {
      assert ids[..i][first.value] == id;
    }
    assert forall k :: 0 <= k < i ==> ids[..i][k] == ids[k];
  }

  /** The rows kept by a cut hold the user turns before it, and only those. */
  lemma CutUserTurns(rows: seq<Row>, i: nat)
    ensures UserTurns(rows[..CutIndex(rows, i)]) == Min(UserTurns(rows), i)
  {
    assert rows[..|rows|] == rows;
  }

  /** Earlier turns start at the same row after the cut. */
  lemma CutKeepsStart(rows: seq<Row>, i: nat, k: nat)
    requires k < i
    ensures var cut := CutIndex(rows, i);
            if UserTurns(rows) > k then CutIndex(rows[..cut], k) == CutIndex(rows, k) < cut
            else cut == |rows|
  {
    var cut := CutIndex(rows, i);
    CutUserTurns(rows, i);
    if UserTurns(rows) > k {
      var start := CutIndex(rows[..cut], k);
      assert rows[..cut][..start] == rows[..start];
      UserTurnUnique(rows, k, start, CutIndex(rows, k));
    } else {
      assert cut == |rows|;
    }
  }

  lemma CutKeepsTurn(rows: seq<Row>, i: nat, k: nat)
    requires k < i
    ensures TurnAt(rows[..CutIndex(rows, i)], k) == TurnAt(rows, k)
  {
    CutKeepsStart(rows, i, k);
    var cut := CutIndex(rows, i);
    assert cut < |rows| ==> rows[cut].role == "user";
    assert rows[..|rows|] == rows;
  }

  /**
    * After retrying from a run, every run first seen before it has the turn it had, every other id has
    * none, and exactly the user turns before it are left. Repeated ids are covered: the first position counts.
    */
  lemma RetryAgreesWithLookup(h: History, retryFrom: string, id: string)
    requires retryFrom != "" && retryFrom in h.runIds
    ensures var i := IndexOf(h.runIds, retryFrom).value;
            var kept := Truncated(h, Some(retryFrom));
            && TurnText(kept, id) == (if IndexOf(h.runIds, id).Some? && IndexOf(h.runIds, id).value < i
                                      then TurnText(h, id) else NO_TURN)
            && UserTurns(kept.rows) == Min(UserTurns(h.rows), i)
            && kept.rows <= h.rows && kept.runIds == h.runIds[..i]
  {
    var i := IndexOf(h.runIds, retryFrom).value;
    IndexInPrefix(h.runIds, id, i);
    CutUserTurns(h.rows, i);
    var first := IndexOf(h.runIds, id);
    if first.Some? && first.value < i {
      CutKeepsTurn(h.rows, i, first.value);
    }
  }

  /** The cut drops no more than it must: one row further there is a user turn too many. */
  lemma CutIsMaximal(h: History, retryFrom: string)
    requires retryFrom != "" && retryFrom in h.runIds
    ensures var i := IndexOf(h.runIds, retryFrom).value;
            var n := |Truncated(h, Some(retryFrom)).rows|;
            forall m :: n < m <= |h.rows| ==> UserTurns(h.rows[..m]) > i
  {
    var i := IndexOf(h.runIds, retryFrom).value;
    var n := CutIndex(h.rows, i);
    forall m | n < m <= |h.rows| ensures UserTurns(h.rows[..m]) > i {
      UserTurnsMonotone(h.rows, n, m);
    }
  }

  lemma CutTwice(h: History, i: nat, j: nat)
    requires j <= i <= |h.runIds|
    ensures CutAt(CutAt(h, i), j) == CutAt(h, j)
  {
    RowsCutTwice(h.rows, i, j);
    assert h.runIds[..i][..j] == h.runIds[..j];
  }

  lemma RowsCutTwice(rows: seq<Row>, i: nat, j: nat)
    requires j <= i
    ensures var kept := rows[..CutIndex(rows, i)]; kept[..CutIndex(kept, j)] == rows[..CutIndex(rows, j)]
  {
    var cut := CutIndex(rows, i);
    assert rows[..|rows|] == rows;
    if j < i {
      CutKeepsStart(rows, i, j);
      if UserTurns(rows) > j {
        assert rows[..cut][..CutIndex(rows, j)] == rows[..CutIndex(rows, j)];
      }
    } else {
      CutUserTurns(rows, i);
      assert rows[..cut][..cut] == rows[..cut];
    }
  }

  /** Retrying again from the same run changes nothing. */
  lemma RetryIdempotent(h: History, retryFrom: Option<string>)
    ensures Truncated(Truncated(h, retryFrom), retryFrom) == Truncated(h, retryFrom)
  {
    if retryFrom.Some? && retryFrom.value in h.runIds {
      IndexInPrefix(h.runIds, retryFrom.value, IndexOf(h.runIds, retryFrom.value).value);
    }
  }

  /** Retrying from a run and then from an earlier one is retrying from the earlier one. */
  lemma RetryComposes(h: History, later: string, earlier: string)
    requires later != "" && earlier != "" && later in h.runIds && earlier in h.runIds
    requires IndexOf(h.runIds, earlier).value < IndexOf(h.runIds, later).value
    ensures Truncated(Truncated(h, Some(later)), Some(earlier)) == Truncated(h, Some(earlier))
  {
    var i, j := IndexOf(h.runIds, later).value, IndexOf(h.runIds, earlier).value;
    IndexInPrefix(h.runIds, earlier, i);
    CutTwice(h, i, j);
  }

  // ---------------------------------------------------------------- idempotency records

  /** `filter_client_requests_for_runs`, a record being its string `run_id` when it has one. */
  function FilterClientRequests(requests: map<string, Option<string>>, runIds: seq<string>): map<string, Option<string>> {
    map key | key in requests && requests[key].Some? && requests[key].value in runIds :: requests[key]
  }

  /** After a retry exactly the records of runs first seen before it survive, filtered before or not. */
  lemma RequestsFollowRetry(h: History, retryFrom: string, requests: map<string, Option<string>>, key: string)
    requires retryFrom != "" && retryFrom in h.runIds && key in requests
    ensures var kept := FilterClientRequests(requests, Truncated(h, Some(retryFrom)).runIds);
            && (key in kept ==> kept[key] == requests[key])
            && FilterClientRequests(FilterClientRequests(requests, h.runIds),
                                    Truncated(h, Some(retryFrom)).runIds) == kept
            && (key in kept <==>
                  && requests[key].Some?
                  && IndexOf(h.runIds, requests[key].value).Some?
                  && IndexOf(h.runIds, requests[key].value).value < IndexOf(h.runIds, retryFrom).value)
  {
    if requests[key].Some? {
      IndexInPrefix(h.runIds, requests[key].value, IndexOf(h.runIds, retryFrom).value);
    }
  }
}
