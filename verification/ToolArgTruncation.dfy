/** Clipping oversized tool-call arguments in older messages: agent_driver/context/tool_arg_truncation.py. */
module ToolArgTruncation {
  import opened Prelude
  import opened Text

  /** An argument value; containers and scalars are given by their compact JSON text. */
  datatype Value = Str(text: string) | Container(json: string) | Scalar(json: string)

  datatype Arg = Arg(name: string, value: Value)

  /** One entry of `tool_calls`; Opaque when it is no map or its `args` is none. */
  datatype Call = Call(toolName: string, args: seq<Arg>) | Opaque(raw: string)

  /** `calls` is None when the metadata holds no list of calls; `rest` is everything else. */
  datatype Message = Message(rest: string, calls: Option<seq<Call>>)

  datatype Audit = Audit(messageIndex: nat, toolName: string, arg: string, dropped: nat)
  datatype Retained = Retained(messageIndex: nat, toolName: string, arg: string, originalChars: nat)
  datatype Outcome = Outcome(messages: seq<Message>, audit: seq<Audit>, retained: seq<Retained>, charsSaved: int)

  /**
    * The size probe for strings: the compact size of each text that opens with a bracket and parses to an
    * object or an array. All results hold for any such probe.
    */
  type Sizer = imap<string, nat>

  function Marker(dropped: nat): string {
    " \U{2026}[arg truncated: " + Decimal(dropped) + " chars]"
  }

  function StructuredSize(v: Value, sizer: Sizer): Option<nat> {
    match v
    case Str(text) => if text in sizer then Some(sizer[text]) else None
    case Container(json) => Some(|json|)
    case Scalar(_) => None
  }

  predicate IsRetained(v: Value, max: nat, sizer: Sizer) {
    var size := StructuredSize(v, sizer);
    size.Some? && size.value > max
  }

  /** The characters this pass cuts from a value. */
  function Dropped(v: Value, max: nat, sizer: Sizer): nat {
    if !IsRetained(v, max, sizer) && v.Str? && |v.text| > max then |v.text| - max else 0
  }

  function ClipValue(v: Value, max: nat, sizer: Sizer): Value {
    var dropped := Dropped(v, max, sizer);
    if dropped > 0 then Str(v.text[..max] + Marker(dropped)) else v
  }

  function ClipArg(a: Arg, max: nat, sizer: Sizer): Arg {
    Arg(a.name, ClipValue(a.value, max, sizer))
  }

  /** The first `k` arguments, clipped. */
  function ClipArgs(args: seq<Arg>, k: nat, max: nat, sizer: Sizer): (r: seq<Arg>)
    requires k <= |args|
    ensures |r| == k
  {
    if k == 0 then [] else ClipArgs(args, k - 1, max, sizer) + [ClipArg(args[k - 1], max, sizer)]
  }

  function ClipCall(c: Call, max: nat, sizer: Sizer): Call {
    match c
    case Opaque(_) => c
    case Call(name, args) => Call(name, ClipArgs(args, |args|, max, sizer))
  }

  /** The first `k` calls, clipped. */
  function ClipCalls(calls: seq<Call>, k: nat, max: nat, sizer: Sizer): (r: seq<Call>)
    requires k <= |calls|
    ensures |r| == k
  {
    if k == 0 then [] else ClipCalls(calls, k - 1, max, sizer) + [ClipCall(calls[k - 1], max, sizer)]
  }

  function ClipMessage(m: Message, max: nat, sizer: Sizer): Message {
    match m.calls
    case None => m
    case Some(calls) => m.(calls := Some(ClipCalls(calls, |calls|, max, sizer)))
  }

  /** The first `k` messages, clipped. */
  function ClipMessages(messages: seq<Message>, k: nat, max: nat, sizer: Sizer): (r: seq<Message>)
    requires k <= |messages|
    ensures |r| == k
  {
    if k == 0 then [] else ClipMessages(messages, k - 1, max, sizer) + [ClipMessage(messages[k - 1], max, sizer)]
  }

  function Cutoff(n: nat, protectLast: int): nat {
    Max(0, n - Max(0, protectLast))
  }

  /** Everything before the protected tail clipped, the tail as it is. */
  function Clipped(messages: seq<Message>, max: nat, protectLast: int, sizer: Sizer): seq<Message> {
    var cutoff := Cutoff(|messages|, protectLast);
    ClipMessages(messages, cutoff, max, sizer) + messages[cutoff..]
  }

  lemma {:induction false} ClipArgsAt(args: seq<Arg>, k: nat, i: nat, max: nat, sizer: Sizer)
    requires i < k <= |args|
    ensures ClipArgs(args, k, max, sizer)[i] == ClipArg(args[i], max, sizer)
  {
    if i < k - 1 {
      ClipArgsAt(args, k - 1, i, max, sizer);
    }
  }

  lemma {:induction false} ClipCallsAt(calls: seq<Call>, k: nat, i: nat, max: nat, sizer: Sizer)
    requires i < k <= |calls|
    ensures ClipCalls(calls, k, max, sizer)[i] == ClipCall(calls[i], max, sizer)
  {
    if i < k - 1 {
      ClipCallsAt(calls, k - 1, i, max, sizer);
    }
  }

  lemma {:induction false} ClipMessagesAt(messages: seq<Message>, k: nat, i: nat, max: nat, sizer: Sizer)
    requires i < k <= |messages|
    ensures ClipMessages(messages, k, max, sizer)[i] == ClipMessage(messages[i], max, sizer)
  {
    if i < k - 1 {
      ClipMessagesAt(messages, k - 1, i, max, sizer);
    }
  }

  lemma ClippedAt(messages: seq<Message>, i: nat, max: nat, protectLast: int, sizer: Sizer)
    requires i < |messages|
    ensures |Clipped(messages, max, protectLast, sizer)| == |messages|
    ensures Clipped(messages, max, protectLast, sizer)[i] ==
            if i < Cutoff(|messages|, protectLast) then ClipMessage(messages[i], max, sizer) else messages[i]
  {
    var cutoff := Cutoff(|messages|, protectLast);
    if i < cutoff {
      ClipMessagesAt(messages, cutoff, i, max, sizer);
    }
  }

  // ---------------------------------------------------------------- what the pass reports

  /** The cuts and the values kept whole, in the order they are met. */
  datatype Report = Report(audit: seq<Audit>, retained: seq<Retained>)

  const NOTHING: Report := Report([], [])

  function Plus(a: Report, b: Report): Report {
    Report(Join(a.audit, b.audit), Join(a.retained, b.retained))
  }

  function ArgReport(index: nat, tool: string, a: Arg, max: nat, sizer: Sizer): Report {
    var dropped := Dropped(a.value, max, sizer);
    Report(
      if dropped > 0 then [Audit(index, tool, a.name, dropped)] else [],
      if IsRetained(a.value, max, sizer)
      then [Retained(index, tool, a.name, StructuredSize(a.value, sizer).value)] else [])
  }

  function ArgsReport(index: nat, tool: string, args: seq<Arg>, k: nat, max: nat, sizer: Sizer): Report
    requires k <= |args|
  {
    if k == 0 then NOTHING
    else Plus(ArgsReport(index, tool, args, k - 1, max, sizer), ArgReport(index, tool, args[k - 1], max, sizer))
  }

  function CallReport(index: nat, c: Call, max: nat, sizer: Sizer): Report {
    match c
    case Opaque(_) => NOTHING
    case Call(name, args) => ArgsReport(index, name, args, |args|, max, sizer)
  }

  function CallsReport(index: nat, calls: seq<Call>, k: nat, max: nat, sizer: Sizer): Report
    requires k <= |calls|
  {
    if k == 0 then NOTHING
    else Plus(CallsReport(index, calls, k - 1, max, sizer), CallReport(index, calls[k - 1], max, sizer))
  }

  function MessageReport(index: nat, m: Message, max: nat, sizer: Sizer): Report {
    match m.calls
    case None => NOTHING
    case Some(calls) => CallsReport(index, calls, |calls|, max, sizer)
  }

  /** The report on the first `k` messages. */
  function ReportUpTo(messages: seq<Message>, k: nat, max: nat, sizer: Sizer): Report
    requires k <= |messages|
  {
    if k == 0 then NOTHING
    else Plus(ReportUpTo(messages, k - 1, max, sizer), MessageReport(k - 1, messages[k - 1], max, sizer))
  }

  function DroppedOf(a: Audit): int {
    a.dropped
  }

  /** Where nothing is reported as cut, nothing was changed. */
  lemma {:induction false} UncutArgs(index: nat, tool: string, args: seq<Arg>, k: nat, max: nat, sizer: Sizer)
    requires k <= |args| && ArgsReport(index, tool, args, k, max, sizer).audit == []
    ensures ClipArgs(args, k, max, sizer) == args[..k]
  {
    if k > 0 {
      UncutArgs(index, tool, args, k - 1, max, sizer);
    }
  }

  lemma UncutCall(index: nat, call: Call, max: nat, sizer: Sizer)
    requires CallReport(index, call, max, sizer).audit == []
    ensures ClipCall(call, max, sizer) == call
  {
    if call.Call? {
      UncutArgs(index, call.toolName, call.args, |call.args|, max, sizer);
      assert call.args[..|call.args|] == call.args;
    }
  }

  lemma {:induction false} UncutCalls(index: nat, calls: seq<Call>, k: nat, max: nat, sizer: Sizer)
    requires k <= |calls| && CallsReport(index, calls, k, max, sizer).audit == []
    ensures ClipCalls(calls, k, max, sizer) == calls[..k]
  {
    if k > 0 {
      UncutCalls(index, calls, k - 1, max, sizer);
      UncutCall(index, calls[k - 1], max, sizer);
    }
  }

  // ---------------------------------------------------------------- the loops

  /** One argument: what replaces it and what is reported. */
  method TruncateArg(index: nat, tool: string, a: Arg, max: nat, sizer: Sizer)
    returns (r: Arg, dropped: nat, audit: seq<Audit>, retained: seq<Retained>)
    ensures r == ClipArg(a, max, sizer)
    ensures Report(audit, retained) == ArgReport(index, tool, a, max, sizer)
    ensures dropped == SumOf(DroppedOf, audit)
  {
    r, dropped, audit, retained := a, 0, [], [];
    var size := StructuredSize(a.value, sizer);
    if size.Some? && size.value > max {
      retained := [Retained(index, tool, a.name, size.value)];
    } else if a.value.Str? && |a.value.text| > max {
      dropped := |a.value.text| - max;
      r := Arg(a.name, Str(a.value.text[..max] + Marker(dropped)));
      audit := [Audit(index, tool, a.name, dropped)];
      assert audit[..0] == [];
    }
  }

  method TruncateArgs(index: nat, tool: string, args: seq<Arg>, max: nat, sizer: Sizer)
    returns (newArgs: seq<Arg>, saved: int, audit: seq<Audit>, retained: seq<Retained>)
    ensures newArgs == ClipArgs(args, |args|, max, sizer)
    ensures Report(audit, retained) == ArgsReport(index, tool, args, |args|, max, sizer)
    ensures saved == SumOf(DroppedOf, audit)
  {
    newArgs, saved, audit, retained := [], 0, [], [];
    for i := 0 to |args|
      invariant newArgs == ClipArgs(args, i, max, sizer)
      invariant Report(audit, retained) == ArgsReport(index, tool, args, i, max, sizer)
      invariant saved == SumOf(DroppedOf, audit)
    {
      var newArg, dropped, argAudit, argRetained := TruncateArg(index, tool, args[i], max, sizer);
      SumJoin(DroppedOf, audit, argAudit);
      newArgs := newArgs + [newArg];
      saved := saved + dropped;
      audit := Join(audit, argAudit);
      retained := Join(retained, argRetained);
    }
  }

  /** One call; a call without cut arguments is passed on as it is. */
  method TruncateCall(index: nat, call: Call, max: nat, sizer: Sizer)
    returns (r: Call, saved: int, audit: seq<Audit>, retained: seq<Retained>)
    ensures r == ClipCall(call, max, sizer)
    ensures Report(audit, retained) == CallReport(index, call, max, sizer)
    ensures saved == SumOf(DroppedOf, audit)
  {
    r, saved, audit, retained := call, 0, [], [];
    if call.Call? {
      var newArgs;
      newArgs, saved, audit, retained := TruncateArgs(index, call.toolName, call.args, max, sizer);
      if audit != [] {
        r := call.(args := newArgs);
      } else {
        UncutCall(index, call, max, sizer);
      }
    }
  }

  method TruncateCalls(index: nat, calls: seq<Call>, max: nat, sizer: Sizer)
    returns (newCalls: seq<Call>, saved: int, audit: seq<Audit>, retained: seq<Retained>)
    ensures newCalls == ClipCalls(calls, |calls|, max, sizer)
    ensures Report(audit, retained) == CallsReport(index, calls, |calls|, max, sizer)
    ensures saved == SumOf(DroppedOf, audit)
  {
    newCalls, saved, audit, retained := [], 0, [], [];
    for i := 0 to |calls|
      invariant newCalls == ClipCalls(calls, i, max, sizer)
      invariant Report(audit, retained) == CallsReport(index, calls, i, max, sizer)
      invariant saved == SumOf(DroppedOf, audit)
    {
      var call, callSaved, callAudit, callRetained := TruncateCall(index, calls[i], max, sizer);
      SumJoin(DroppedOf, audit, callAudit);
      newCalls := newCalls + [call];
      saved := saved + callSaved;
      audit := Join(audit, callAudit);
      retained := Join(retained, callRetained);
    }
  }

  /** One message before the cutoff. */
  method TruncateMessage(index: nat, message: Message, max: nat, sizer: Sizer)
    returns (r: Message, saved: int, audit: seq<Audit>, retained: seq<Retained>)
    ensures r == ClipMessage(message, max, sizer)
    ensures Report(audit, retained) == MessageReport(index, message, max, sizer)
    ensures saved == SumOf(DroppedOf, audit)
  {
    r, saved, audit, retained := message, 0, [], [];
    if message.calls.Some? {
      var calls, newCalls := message.calls.value, [];
      newCalls, saved, audit, retained := TruncateCalls(index, calls, max, sizer);
      if audit != [] {
        r := message.(calls := Some(newCalls));
      } else {
        UncutCalls(index, calls, |calls|, max, sizer);
        assert calls[..|calls|] == calls;
      }
    }
  }

  /** The messages before the cutoff, one by one. */
  method TruncateOlder(messages: seq<Message>, cutoff: nat, max: nat, sizer: Sizer)
    returns (out: seq<Message>, saved: int, audit: seq<Audit>, retained: seq<Retained>)
    requires cutoff <= |messages|
    ensures out == ClipMessages(messages, cutoff, max, sizer)
    ensures Report(audit, retained) == ReportUpTo(messages, cutoff, max, sizer)
    ensures saved == SumOf(DroppedOf, audit)
  {
    out, saved, audit, retained := [], 0, [], [];
    for index := 0 to cutoff
      invariant out == ClipMessages(messages, index, max, sizer)
      invariant Report(audit, retained) == ReportUpTo(messages, index, max, sizer)
      invariant saved == SumOf(DroppedOf, audit)
    {
      var message, msgSaved, msgAudit, msgRetained := TruncateMessage(index, messages[index], max, sizer);
      SumJoin(DroppedOf, audit, msgAudit);
      out := out + [message];
      saved := saved + msgSaved;
      audit := Join(audit, msgAudit);
      retained := Join(retained, msgRetained);
    }
  }

  method TruncateToolCallArgs(messages: seq<Message>, maxArgChars: int, protectLast: int, sizer: Sizer)
    returns (r: Result<Outcome>)
    ensures r.Failure? <==> maxArgChars < 0
    ensures r.Success? ==>
              && r.value.messages == Clipped(messages, maxArgChars, protectLast, sizer)
              && Report(r.value.audit, r.value.retained) == Reported(messages, maxArgChars, protectLast, sizer)
              && r.value.charsSaved == SumOf(DroppedOf, r.value.audit)
              && |r.value.messages| == |messages|
              && (forall i :: Max(0, |messages| - Max(0, protectLast)) <= i < |messages| ==>
                    r.value.messages[i] == messages[i])
  {
    if maxArgChars < 0 {
      return Failure("max_arg_chars must be >= 0");
    }
    var cutoff := Cutoff(|messages|, protectLast);
    var out, saved, audit, retained := TruncateOlder(messages, cutoff, maxArgChars, sizer);
    r := Success(Outcome(out + messages[cutoff..], audit, retained, saved));
  }

  // ---------------------------------------------------------------- the report is exact

  /** Some call of the message passes `arg` to `tool`. */
  ghost predicate Passed(m: Message, tool: string, arg: Arg) {
    m.calls.Some? && exists j :: 0 <= j < |m.calls.value| && PassedBy(m.calls.value[j], tool, arg)
  }

  predicate PassedBy(c: Call, tool: string, arg: Arg) {
    c.Call? && c.toolName == tool && arg in c.args
  }

  /** An entry of either list. */
  datatype Note = Cut(audit: Audit) | Kept(retained: Retained)

  predicate Says(report: Report, note: Note) {
    match note
    case Cut(a) => a in report.audit
    case Kept(r) => r in report.retained
  }

  lemma PlusSays(a: Report, b: Report, note: Note)
    ensures Says(Plus(a, b), note) <==> Says(a, note) || Says(b, note)
  {
  }

  /** The argument gives rise to that entry. */
  predicate ArgSays(index: nat, tool: string, a: Arg, max: nat, sizer: Sizer, note: Note) {
    match note
    case Cut(audit) => Dropped(a.value, max, sizer) > 0 && audit == Audit(index, tool, a.name, Dropped(a.value, max, sizer))
    case Kept(retained) =>
      && IsRetained(a.value, max, sizer)
      && retained == Retained(index, tool, a.name, StructuredSize(a.value, sizer).value)
  }

  lemma ArgReportSays(index: nat, tool: string, a: Arg, max: nat, sizer: Sizer, note: Note)
    ensures Says(ArgReport(index, tool, a, max, sizer), note) <==> ArgSays(index, tool, a, max, sizer, note)
  {
  }

  lemma {:induction false} ArgsSay(index: nat, tool: string, args: seq<Arg>, k: nat, max: nat, sizer: Sizer, note: Note)
    requires k <= |args|
    ensures Says(ArgsReport(index, tool, args, k, max, sizer), note) <==>
            exists i :: 0 <= i < k && ArgSays(index, tool, args[i], max, sizer, note)
  {
    if k > 0 {
      ArgsSay(index, tool, args, k - 1, max, sizer, note);
      ArgReportSays(index, tool, args[k - 1], max, sizer, note);
      PlusSays(ArgsReport(index, tool, args, k - 1, max, sizer), ArgReport(index, tool, args[k - 1], max, sizer), note);
    }
  }

  lemma {:induction false} CallsSay(index: nat, calls: seq<Call>, k: nat, max: nat, sizer: Sizer, note: Note)
    requires k <= |calls|
    ensures Says(CallsReport(index, calls, k, max, sizer), note) <==>
            exists j :: 0 <= j < k && Says(CallReport(index, calls[j], max, sizer), note)
  {
    if k > 0 {
      CallsSay(index, calls, k - 1, max, sizer, note);
      PlusSays(CallsReport(index, calls, k - 1, max, sizer), CallReport(index, calls[k - 1], max, sizer), note);
    }
  }

  lemma {:induction false} MessagesSay(messages: seq<Message>, k: nat, max: nat, sizer: Sizer, note: Note)
    requires k <= |messages|
    ensures Says(ReportUpTo(messages, k, max, sizer), note) <==>
            exists i :: 0 <= i < k && Says(MessageReport(i, messages[i], max, sizer), note)
  {
    if k > 0 {
      MessagesSay(messages, k - 1, max, sizer, note);
      PlusSays(ReportUpTo(messages, k - 1, max, sizer), MessageReport(k - 1, messages[k - 1], max, sizer), note);
    }
  }

  lemma CallSays(index: nat, c: Call, max: nat, sizer: Sizer, note: Note)
    ensures Says(CallReport(index, c, max, sizer), note) <==>
            c.Call? && exists a :: a in c.args && ArgSays(index, c.toolName, a, max, sizer, note)
  {
    if c.Call? {
      ArgsSay(index, c.toolName, c.args, |c.args|, max, sizer, note);
    }
  }

  /** A message's report holds what one of its arguments gives rise to, and nothing else. */
  lemma MessageSays(index: nat, m: Message, max: nat, sizer: Sizer, note: Note)
    ensures Says(MessageReport(index, m, max, sizer), note) <==>
            exists tool, a :: Passed(m, tool, a) && ArgSays(index, tool, a, max, sizer, note)
  {
    if m.calls.Some? {
      var calls := m.calls.value;
      CallsSay(index, calls, |calls|, max, sizer, note);
      forall j | 0 <= j < |calls|
        ensures Says(CallReport(index, calls[j], max, sizer), note) <==>
                exists tool, a :: PassedBy(calls[j], tool, a) && ArgSays(index, tool, a, max, sizer, note)
      {
        CallSays(index, calls[j], max, sizer, note);
      }
    }
  }

  /** What the pass reports of a history. */
  function Reported(messages: seq<Message>, max: nat, protectLast: int, sizer: Sizer): Report {
    ReportUpTo(messages, Cutoff(|messages|, protectLast), max, sizer)
  }

  /**
    * The audit is sound and complete: an entry is in it exactly when its message is none of the last
    * `protectLast` and passes that argument with a value this pass cuts by that much.
    */
  lemma AuditExact(messages: seq<Message>, max: nat, protectLast: int, sizer: Sizer, a: Audit)
    ensures a in Reported(messages, max, protectLast, sizer).audit <==>
            && a.messageIndex < |messages| - Max(0, protectLast) && a.dropped > 0
            && exists v :: Passed(messages[a.messageIndex], a.toolName, Arg(a.arg, v)) && Dropped(v, max, sizer) == a.dropped
  {
    var cutoff := Cutoff(|messages|, protectLast);
    MessagesSay(messages, cutoff, max, sizer, Cut(a));
    forall i | 0 <= i < cutoff
      ensures Says(MessageReport(i, messages[i], max, sizer), Cut(a)) <==>
              && a.messageIndex == i && a.dropped > 0
              && exists v :: Passed(messages[i], a.toolName, Arg(a.arg, v)) && Dropped(v, max, sizer) == a.dropped
    {
      AuditOfMessage(i, messages[i], max, sizer, a);
    }
  }

  lemma AuditOfMessage(i: nat, m: Message, max: nat, sizer: Sizer, a: Audit)
    ensures Says(MessageReport(i, m, max, sizer), Cut(a)) <==>
            && a.messageIndex == i && a.dropped > 0
            && exists v :: Passed(m, a.toolName, Arg(a.arg, v)) && Dropped(v, max, sizer) == a.dropped
  {
    MessageSays(i, m, max, sizer, Cut(a));
    if tool, x :| Passed(m, tool, x) && ArgSays(i, tool, x, max, sizer, Cut(a)) {
      assert x == Arg(a.arg, x.value);
    }
    if v :| a.messageIndex == i && a.dropped > 0
            && Passed(m, a.toolName, Arg(a.arg, v)) && Dropped(v, max, sizer) == a.dropped {
      assert ArgSays(i, a.toolName, Arg(a.arg, v), max, sizer, Cut(a));
    }
  }

  /** Likewise the list of values kept whole. */
  lemma RetainedExact(messages: seq<Message>, max: nat, protectLast: int, sizer: Sizer, r: Retained)
    ensures r in Reported(messages, max, protectLast, sizer).retained <==>
            && r.messageIndex < |messages| - Max(0, protectLast) && r.originalChars > max
            && exists v :: Passed(messages[r.messageIndex], r.toolName, Arg(r.arg, v)) &&
                           StructuredSize(v, sizer) == Some(r.originalChars)
  {
    var cutoff := Cutoff(|messages|, protectLast);
    MessagesSay(messages, cutoff, max, sizer, Kept(r));
    forall i | 0 <= i < cutoff
      ensures Says(MessageReport(i, messages[i], max, sizer), Kept(r)) <==>
              && r.messageIndex == i && r.originalChars > max
              && exists v :: Passed(messages[i], r.toolName, Arg(r.arg, v)) &&
                             StructuredSize(v, sizer) == Some(r.originalChars)
    {
      RetainedOfMessage(i, messages[i], max, sizer, r);
    }
  }

  lemma RetainedOfMessage(i: nat, m: Message, max: nat, sizer: Sizer, r: Retained)
    ensures Says(MessageReport(i, m, max, sizer), Kept(r)) <==>
            && r.messageIndex == i && r.originalChars > max
            && exists v :: Passed(m, r.toolName, Arg(r.arg, v)) && StructuredSize(v, sizer) == Some(r.originalChars)
  {
    MessageSays(i, m, max, sizer, Kept(r));
    if tool, x :| Passed(m, tool, x) && ArgSays(i, tool, x, max, sizer, Kept(r)) {
      assert x == Arg(r.arg, x.value);
    }
    if v :| r.messageIndex == i && r.originalChars > max
            && Passed(m, r.toolName, Arg(r.arg, v)) && StructuredSize(v, sizer) == Some(r.originalChars) {
      assert ArgSays(i, r.toolName, Arg(r.arg, v), max, sizer, Kept(r));
    }
  }

  /** Each argument is cut, or kept whole and reported, or within the limit, and never two of these. */
  lemma ReportedOnce(index: nat, tool: string, a: Arg, max: nat, sizer: Sizer)
    ensures var r := ArgReport(index, tool, a, max, sizer);
            && |r.audit| + |r.retained| <= 1
            && (r.audit == [] ==> ClipArg(a, max, sizer) == a)
  {
  }

  /**
    * A reported cut changes the text unless what it cuts is the marker it would write: a text that
    * already ends in the marker of 27 characters is reported as 27 characters saved on every pass.
    */
  lemma CutWithoutChangeIff(v: Value, max: nat, sizer: Sizer)
    requires Dropped(v, max, sizer) > 0
    ensures ClipValue(v, max, sizer) == v <==> v.text[max..] == Marker(27)
  {
    var d := |v.text| - max;
    assert v.text == v.text[..max] + v.text[max..];
    assert ClipValue(v, max, sizer).text[max..] == Marker(d);
    assert |Marker(d)| == 25 + |Decimal(d)|;
    TwoDigits(27);
    DecimalShort(d);
    if d == 25 + |Decimal(d)| {
      assert 10 <= d < 100;
      TwoDigits(d);
    }
  }

  // ---------------------------------------------------------------- conservation

  function ArgChars(a: Arg): int {
    match a.value
    case Str(text) => |text|
    case Container(json) => |json|
    case Scalar(json) => |json|
  }

  function CallChars(c: Call): int {
    if c.Call? then SumOf(ArgChars, c.args) else 0
  }

  function MessageChars(m: Message): int {
    match m.calls
    case None => 0
    case Some(calls) => SumOf(CallChars, calls)
  }

  /** What one audited cut takes from the text: the characters dropped, less the marker put in their place. */
  function NetOf(a: Audit): int {
    a.dropped - |Marker(a.dropped)|
  }

  function Net(r: Report): int {
    SumOf(NetOf, r.audit)
  }

  lemma NetPlus(a: Report, b: Report)
    ensures Net(Plus(a, b)) == Net(a) + Net(b)
  {
    SumJoin(NetOf, a.audit, b.audit);
  }

  lemma ArgConserves(index: nat, tool: string, a: Arg, max: nat, sizer: Sizer)
    ensures ArgChars(a) == ArgChars(ClipArg(a, max, sizer)) + Net(ArgReport(index, tool, a, max, sizer))
  {
    var d := Dropped(a.value, max, sizer);
    if d > 0 {
      SumSingle(NetOf, Audit(index, tool, a.name, d));
      assert |ClipArg(a, max, sizer).value.text| == max + |Marker(d)|;
    }
  }

  lemma {:induction false} ArgsConserve(index: nat, tool: string, args: seq<Arg>, k: nat, max: nat, sizer: Sizer)
    requires k <= |args|
    ensures SumOf(ArgChars, args[..k]) ==
            SumOf(ArgChars, ClipArgs(args, k, max, sizer)) + Net(ArgsReport(index, tool, args, k, max, sizer))
  {
    if k > 0 {
      var a := args[k - 1];
      ArgsConserve(index, tool, args, k - 1, max, sizer);
      SumExtend(ArgChars, args, k - 1);
      SumPush(ArgChars, ClipArgs(args, k - 1, max, sizer), ClipArg(a, max, sizer));
      ArgConserves(index, tool, a, max, sizer);
      NetPlus(ArgsReport(index, tool, args, k - 1, max, sizer), ArgReport(index, tool, a, max, sizer));
      assert Net(ArgsReport(index, tool, args, k, max, sizer)) ==
             Net(ArgsReport(index, tool, args, k - 1, max, sizer)) + Net(ArgReport(index, tool, a, max, sizer));
    }
  }

  lemma CallConserves(index: nat, c: Call, max: nat, sizer: Sizer)
    ensures CallChars(c) == CallChars(ClipCall(c, max, sizer)) + Net(CallReport(index, c, max, sizer))
  {
    if c.Call? {
      ArgsConserve(index, c.toolName, c.args, |c.args|, max, sizer);
      assert c.args[..|c.args|] == c.args;
    }
  }

  lemma {:induction false} CallsConserve(index: nat, calls: seq<Call>, k: nat, max: nat, sizer: Sizer)
    requires k <= |calls|
    ensures SumOf(CallChars, calls[..k]) ==
            SumOf(CallChars, ClipCalls(calls, k, max, sizer)) + Net(CallsReport(index, calls, k, max, sizer))
  {
    if k > 0 {
      CallsConserve(index, calls, k - 1, max, sizer);
      SumExtend(CallChars, calls, k - 1);
      SumPush(CallChars, ClipCalls(calls, k - 1, max, sizer), ClipCall(calls[k - 1], max, sizer));
      CallConserves(index, calls[k - 1], max, sizer);
      NetPlus(CallsReport(index, calls, k - 1, max, sizer), CallReport(index, calls[k - 1], max, sizer));
    }
  }

  lemma MessageConserves(index: nat, m: Message, max: nat, sizer: Sizer)
    ensures MessageChars(m) == MessageChars(ClipMessage(m, max, sizer)) + Net(MessageReport(index, m, max, sizer))
  {
    if m.calls.Some? {
      CallsConserve(index, m.calls.value, |m.calls.value|, max, sizer);
      assert m.calls.value[..|m.calls.value|] == m.calls.value;
    }
  }

  lemma {:induction false} OlderConserve(messages: seq<Message>, k: nat, max: nat, sizer: Sizer)
    requires k <= |messages|
    ensures SumOf(MessageChars, messages[..k]) ==
            SumOf(MessageChars, ClipMessages(messages, k, max, sizer)) + Net(ReportUpTo(messages, k, max, sizer))
  {
    if k > 0 {
      OlderConserve(messages, k - 1, max, sizer);
      SumExtend(MessageChars, messages, k - 1);
      SumPush(MessageChars, ClipMessages(messages, k - 1, max, sizer), ClipMessage(messages[k - 1], max, sizer));
      MessageConserves(k - 1, messages[k - 1], max, sizer);
      NetPlus(ReportUpTo(messages, k - 1, max, sizer), MessageReport(k - 1, messages[k - 1], max, sizer));
    }
  }

  lemma {:induction false} NetIsSavedLessMarkers(audit: seq<Audit>)
    ensures SumOf(NetOf, audit) == SumOf(DroppedOf, audit) - SumOf(MarkerChars, audit)
  {
    if audit != [] {
      NetIsSavedLessMarkers(audit[..|audit| - 1]);
    }
  }

  function MarkerChars(a: Audit): int {
    |Marker(a.dropped)|
  }

  /** Every argument character is accounted for: those before are those after, plus the saved, less the markers. */
  lemma ClippingConserves(messages: seq<Message>, max: nat, protectLast: int, sizer: Sizer)
    ensures var audit := Reported(messages, max, protectLast, sizer).audit;
            SumOf(MessageChars, messages) ==
            SumOf(MessageChars, Clipped(messages, max, protectLast, sizer))
            + SumOf(DroppedOf, audit) - SumOf(MarkerChars, audit)
  {
    var cutoff := Cutoff(|messages|, protectLast);
    var audit := ReportUpTo(messages, cutoff, max, sizer).audit;
    OlderConserve(messages, cutoff, max, sizer);
    SumSplit(MessageChars, messages, cutoff);
    SumConcat(MessageChars, ClipMessages(messages, cutoff, max, sizer), messages[cutoff..]);
    NetIsSavedLessMarkers(audit);
  }

  // ---------------------------------------------------------------- one pass

  /**
    * A value that reads as a JSON container is left whole exactly when it is not a string, or its compact
    * size is over the limit, or its text is within it. So a container padded with white space past the
    * limit is cut like prose.
    */
  lemma StructuredKeptIff(v: Value, max: nat, sizer: Sizer)
    requires StructuredSize(v, sizer).Some?
    ensures Dropped(v, max, sizer) == 0 <==>
            v.Container? || StructuredSize(v, sizer).value > max || |v.text| <= max
    ensures Dropped(v, max, sizer) == 0 ==> ClipValue(v, max, sizer) == v
  {
  }

  /**
    * One pass over one value: a string over the limit that is not kept as structured becomes its head and
    * the note of how many characters went; everything else stays.
    */
  lemma ClipMeans(v: Value, max: nat, sizer: Sizer)
    ensures var size := StructuredSize(v, sizer);
            ClipValue(v, max, sizer) ==
            if v.Str? && |v.text| > max && (size.None? || size.value <= max)
            then Str(v.text[..max] + (" \U{2026}[arg truncated: " + Decimal(|v.text| - max) + " chars]"))
            else v
    ensures v.Container? ==> StructuredSize(v, sizer) == Some(|v.json|)
    ensures v.Scalar? ==> StructuredSize(v, sizer) == None
  {
  }

  /** A pass over a history: the last `protectLast` messages as they were, every argument of the others clipped. */
  lemma ClippedHistory(messages: seq<Message>, max: nat, protectLast: int, sizer: Sizer, i: nat)
    requires i < |messages|
    ensures var now := Clipped(messages, max, protectLast, sizer);
            && |now| == |messages|
            && (i >= |messages| - Max(0, protectLast) ==> now[i] == messages[i])
            && (i < |messages| - Max(0, protectLast) ==> PassedMessage(messages[i], now[i], 1, max, sizer))
  {
    ClippedAt(messages, i, max, protectLast, sizer);
    PassedNone(messages[i], max, sizer);
    PassOneMore(messages[i], messages[i], 1, max, sizer);
  }

  lemma PassedNone(m: Message, max: nat, sizer: Sizer)
    ensures PassedMessage(m, m, 0, max, sizer)
  {
  }

  /** Padded JSON of compact size 2 is cut under a limit of 4. */
  lemma PaddedJsonIsCut(sizer: Sizer)
    requires "[     ]" in sizer && sizer["[     ]"] == 2
    ensures ClipValue(Str("[     ]"), 4, sizer) == Str("[   " + Marker(3))
  {
    assert "[     ]"[..4] == "[   ";
  }

  /** A clip changes the length by what the marker adds; it lengthens the text exactly when it cut at most 26 characters. */
  lemma ClipLength(text: string, max: nat, sizer: Sizer)
    requires Dropped(Str(text), max, sizer) > 0
    ensures ClipValue(Str(text), max, sizer).Str?
    ensures |ClipValue(Str(text), max, sizer).text| == max + 25 + |Decimal(|text| - max)|
    ensures |ClipValue(Str(text), max, sizer).text| > |text| <==> |text| - max <= 26
  {
    var d := |text| - max;
    if d < 100 {
      DecimalLengthBelow(d, if d < 10 then 0 else 1);
      assert Pow10(1) == 10 && Pow10(2) == 100;
      DecimalLength(d, if d < 10 then 1 else 2);
    } else {
      DecimalShort(d);
    }
  }

  // ---------------------------------------------------------------- repeated passes

  /** One pass over a value, as a function of the value. */
  function Clip(max: nat, sizer: Sizer): Value -> Value {
    (v: Value) => ClipValue(v, max, sizer)
  }

  /** A value after `n` passes. */
  function Passes(v: Value, n: nat, max: nat, sizer: Sizer): Value {
    Iterate(Clip(max, sizer), v, n)
  }

  lemma ClipKeepsHead(text: string, max: nat, sizer: Sizer)
    ensures ClipValue(Str(text), max, sizer).Str?
    ensures text[..Min(max, |text|)] <= ClipValue(Str(text), max, sizer).text
    ensures |text| <= max ==> ClipValue(Str(text), max, sizer) == Str(text)
    ensures |text| > max ==> |ClipValue(Str(text), max, sizer).text| > max
  {
  }

  /** However often the pass runs, a string keeps its first `max` characters and other values are untouched. */
  lemma {:induction false} HeadSurvives(v: Value, n: nat, max: nat, sizer: Sizer)
    ensures !v.Str? ==> Passes(v, n, max, sizer) == v
    ensures v.Str? && |v.text| <= max ==> Passes(v, n, max, sizer) == v
    ensures v.Str? && |v.text| > max ==>
              (var now := Passes(v, n, max, sizer); now.Str? && |now.text| > max && now.text[..max] == v.text[..max])
  {
    if n > 0 {
      HeadSurvives(v, n - 1, max, sizer);
      if v.Str? {
        ClipKeepsHead(Passes(v, n - 1, max, sizer).text, max, sizer);
      }
    }
  }

  /** Text already clipped with a count of `d` dropped characters. */
  function ClippedText(head: string, d: nat): Value {
    Str(head + Marker(d))
  }

  /** The next pass over clipped text either keeps it or replaces the count by the marker's own length. */
  lemma ClipClipped(head: string, d: nat, max: nat, sizer: Sizer)
    requires |head| == max
    ensures ClipValue(ClippedText(head, d), max, sizer) == ClippedText(head, d) ||
            ClipValue(ClippedText(head, d), max, sizer) == ClippedText(head, 25 + |Decimal(d)|)
  {
    var t := ClippedText(head, d).text;
    assert |Marker(d)| == 25 + |Decimal(d)|;
    assert t[..max] == head;
  }

  lemma TwoDigits(d: nat)
    requires 10 <= d < 100
    ensures |Decimal(d)| == 2
  {
    assert Pow10(1) == 10 && Pow10(2) == 100;
    DecimalLength(d, 2);
    DecimalLengthBelow(d, 1);
  }

  /**
    * The chain of counts: from a count of `d`, a step keeps the value or moves to the count 25 plus the
    * number of digits of `d`. After a two-digit count comes 27, which repeats itself.
    */
  ghost predicate IsChain<T>(f: T -> T, c: nat -> T) {
    forall d {:trigger f(c(d))} :: f(c(d)) == c(d) || f(c(d)) == c(25 + |Decimal(d)|)
  }

  lemma TwentySeven<T>(f: T -> T, c: nat -> T, d: nat)
    requires IsChain(f, c) && |Decimal(d)| == 2
    ensures FixedAfter(f, c(d), 1)
  {
    TwoDigits(27);
    assert Iterate(f, c(d), 1) == f(Iterate(f, c(d), 0));
    assert f(c(27)) == c(27);
  }

  /** From a count of at most `k` digits a chain is fixed after at most max(2, k) steps. */
  lemma {:induction false} ChainReachesFixpoint<T>(f: T -> T, c: nat -> T, d: nat, k: nat)
    requires IsChain(f, c) && |Decimal(d)| <= k && 2 <= k
    ensures FixedAfter(f, c(d), k)
    decreases k
  {
    if f(c(d)) == c(d) {
      IterateFixed(f, c(d), k);
    } else {
      var d1 := 25 + |Decimal(d)|;
      if k == 2 {
        TwoDigits(d1);
        TwentySeven(f, c, d1);
      } else {
        CountShrinks(|Decimal(d)|, k);
        ChainReachesFixpoint(f, c, d1, k - 1);
      }
      FixedAfterNext(f, c(d), k - 1);
    }
  }

  /** A count of at most 74 digits is two steps from its fixed point. */
  lemma ShortChainReachesFixpoint<T>(f: T -> T, c: nat -> T, d: nat)
    requires IsChain(f, c) && |Decimal(d)| <= 74
    ensures FixedAfter(f, c(d), 2)
  {
    if f(c(d)) == c(d) {
      IterateFixed(f, c(d), 2);
    } else {
      var d1 := 25 + |Decimal(d)|;
      TwoDigits(d1);
      TwentySeven(f, c, d1);
      FixedAfterNext(f, c(d), 1);
    }
  }

  /** Clipped text, as a function of its count. */
  function CountedText(head: string): nat -> Value {
    (d: nat) => ClippedText(head, d)
  }

  lemma ClippingIsChain(head: string, max: nat, sizer: Sizer)
    requires |head| == max
    ensures IsChain(Clip(max, sizer), CountedText(head))
  {
    forall d: nat ensures ClipValue(ClippedText(head, d), max, sizer) == ClippedText(head, d) ||
                          ClipValue(ClippedText(head, d), max, sizer) == ClippedText(head, 25 + |Decimal(d)|)
    {
      ClipClipped(head, d, max, sizer);
    }
  }

  lemma CountShrinks(digits: nat, k: nat)
    requires digits <= k && 3 <= k
    ensures |Decimal(25 + digits)| <= k - 1
  {
    if 25 + digits < 100 {
      assert Pow10(2) == 100;
      DecimalLength(25 + digits, 2);
    } else {
      LinearBelowPower(k - 1);
      DecimalLength(25 + digits, k - 1);
    }
  }

  lemma {:induction false} LinearBelowPower(k: nat)
    requires k >= 2
    ensures 26 + k < Pow10(k)
  {
    if k == 2 {
      assert Pow10(2) == 100;
    } else {
      LinearBelowPower(k - 1);
    }
  }

  /** A first clip starts the chain. */
  lemma FirstClip(v: Value, max: nat, sizer: Sizer)
    requires ClipValue(v, max, sizer) != v
    ensures v.Str? && |v.text| > max
    ensures Clip(max, sizer)(v) == CountedText(v.text[..max])(|v.text| - max)
    ensures IsChain(Clip(max, sizer), CountedText(v.text[..max]))
  {
    ClippingIsChain(v.text[..max], max, sizer);
  }

  lemma ChainFromStart<T>(f: T -> T, c: nat -> T, x: T, d: nat, n: nat)
    requires IsChain(f, c) && f(x) == c(d) && |Decimal(d)| < n && 3 <= n
    ensures FixedAfter(f, x, n)
  {
    ChainReachesFixpoint(f, c, d, n - 1);
    FixedAfterNext(f, x, n - 1);
  }

  /**
    * Every value stops changing: no pass after as many as its text has characters, plus three, does
    * anything to it.
    */
  lemma ValueReachesFixpoint(v: Value, n: nat, max: nat, sizer: Sizer)
    requires v.Str? ==> |v.text| + 3 <= n
    ensures FixedAfter(Clip(max, sizer), v, n)
    ensures forall m :: m >= n ==> Passes(v, m, max, sizer) == Passes(v, n, max, sizer)
  {
    var f := Clip(max, sizer);
    if f(v) == v {
      IterateFixed(f, v, n);
    } else {
      FirstClip(v, max, sizer);
      DecimalShort(|v.text| - max);
      ChainFromStart(f, CountedText(v.text[..max]), v, |v.text| - max, n);
    }
    forall m | m >= n ensures Passes(v, m, max, sizer) == Passes(v, n, max, sizer) {
      FixedLater(f, v, n, m);
    }
  }

  /** Three passes are enough for any text whose excess has at most 74 digits. */
  lemma ThreePassesSuffice(v: Value, max: nat, sizer: Sizer)
    requires v.Str? && |v.text| > max ==> |Decimal(|v.text| - max)| <= 74
    ensures FixedAfter(Clip(max, sizer), v, 3)
  {
    var f := Clip(max, sizer);
    if f(v) == v {
      IterateFixed(f, v, 3);
    } else {
      FirstClip(v, max, sizer);
      ShortChainReachesFixpoint(f, CountedText(v.text[..max]), |v.text| - max);
      FixedAfterNext(f, v, 2);
    }
  }

  // ---------------------------------------------------------------- whole histories

  /** One pass over a history, as a function of the history. */
  function Pass(max: nat, protectLast: int, sizer: Sizer): seq<Message> -> seq<Message> {
    (messages: seq<Message>) => Clipped(messages, max, protectLast, sizer)
  }

  /** The history after `n` passes. */
  function HistoryPasses(messages: seq<Message>, n: nat, max: nat, protectLast: int, sizer: Sizer): seq<Message> {
    Iterate(Pass(max, protectLast, sizer), messages, n)
  }

  /** Message `now` is message `was` with every argument value passed `n` times, and nothing else changed. */
  ghost predicate PassedMessage(was: Message, now: Message, n: nat, max: nat, sizer: Sizer) {
    && now.rest == was.rest
    && (was.calls.None? ==> now.calls.None?)
    && (was.calls.Some? ==> now.calls.Some? && PassedCalls(was.calls.value, now.calls.value, n, max, sizer))
  }

  ghost predicate PassedCalls(was: seq<Call>, now: seq<Call>, n: nat, max: nat, sizer: Sizer) {
    |now| == |was| && forall j :: 0 <= j < |was| ==> PassedCall(was[j], now[j], n, max, sizer)
  }

  ghost predicate PassedCall(was: Call, now: Call, n: nat, max: nat, sizer: Sizer) {
    match was
    case Opaque(_) => now == was
    case Call(name, args) =>
      && now.Call? && now.toolName == name && |now.args| == |args|
      && forall k :: 0 <= k < |args| ==>
           now.args[k] == Arg(args[k].name, Passes(args[k].value, n, max, sizer))
  }

  /** Repeated passes act on each argument value by itself; the protected tail and all else stay as they were. */
  lemma {:induction false} PassesArePointwise(messages: seq<Message>, n: nat, max: nat, protectLast: int, sizer: Sizer)
    ensures var now, older := HistoryPasses(messages, n, max, protectLast, sizer), |messages| - Max(0, protectLast);
            && |now| == |messages|
            && (forall i :: 0 <= i < |messages| && i >= older ==> now[i] == messages[i])
            && (forall i :: 0 <= i < |messages| && i < older ==> PassedMessage(messages[i], now[i], n, max, sizer))
  {
    if n > 0 {
      PassesArePointwise(messages, n - 1, max, protectLast, sizer);
      var before := HistoryPasses(messages, n - 1, max, protectLast, sizer);
      var now := HistoryPasses(messages, n, max, protectLast, sizer);
      assert now == Clipped(before, max, protectLast, sizer);
      forall i | 0 <= i < |messages|
        ensures if i < Cutoff(|messages|, protectLast) then PassedMessage(messages[i], now[i], n, max, sizer)
                else now[i] == messages[i]
      {
        ClippedAt(before, i, max, protectLast, sizer);
        if i < Cutoff(|messages|, protectLast) {
          PassOneMore(messages[i], before[i], n, max, sizer);
        }
      }
    }
  }

  lemma PassOneMore(was: Message, before: Message, n: nat, max: nat, sizer: Sizer)
    requires n > 0 && PassedMessage(was, before, n - 1, max, sizer)
    ensures PassedMessage(was, ClipMessage(before, max, sizer), n, max, sizer)
  {
    if was.calls.Some? {
      var old_ := before.calls.value;
      var new_ := ClipCalls(old_, |old_|, max, sizer);
      forall j | 0 <= j < |was.calls.value| ensures PassedCall(was.calls.value[j], new_[j], n, max, sizer) {
        ClipCallsAt(old_, |old_|, j, max, sizer);
        PassCallOnce(was.calls.value[j], old_[j], n, max, sizer);
      }
    }
  }

  lemma PassCallOnce(was: Call, before: Call, n: nat, max: nat, sizer: Sizer)
    requires n > 0 && PassedCall(was, before, n - 1, max, sizer)
    ensures PassedCall(was, ClipCall(before, max, sizer), n, max, sizer)
  {
    if was.Call? {
      forall k | 0 <= k < |was.args|
        ensures ClipArgs(before.args, |before.args|, max, sizer)[k] == Arg(was.args[k].name, Passes(was.args[k].value, n, max, sizer))
      {
        ClipArgsAt(before.args, |before.args|, k, max, sizer);
      }
    }
  }

  /** No argument text of the history is longer than `bound`. */
  ghost predicate TextsWithin(messages: seq<Message>, bound: int) {
    forall i, j, k ::
      0 <= i < |messages| && messages[i].calls.Some? &&
      0 <= j < |messages[i].calls.value| && messages[i].calls.value[j].Call? &&
      0 <= k < |messages[i].calls.value[j].args| && messages[i].calls.value[j].args[k].value.Str? ==>
        |messages[i].calls.value[j].args[k].value.text| <= bound
  }

  /** Every history reaches a fixed point: no pass after the longest text plus three changes anything. */
  lemma HistoryReachesFixpoint(messages: seq<Message>, n: nat, later: nat, max: nat, protectLast: int, sizer: Sizer)
    requires TextsWithin(messages, n - 3) && 3 <= n <= later
    ensures HistoryPasses(messages, later, max, protectLast, sizer) == HistoryPasses(messages, n, max, protectLast, sizer)
  {
    PassesArePointwise(messages, n, max, protectLast, sizer);
    PassesArePointwise(messages, later, max, protectLast, sizer);
    var a, b := HistoryPasses(messages, n, max, protectLast, sizer), HistoryPasses(messages, later, max, protectLast, sizer);
    forall i | 0 <= i < |messages| ensures a[i] == b[i] {
      if i < Cutoff(|messages|, protectLast) {
        FixedMessage(messages, i, a[i], b[i], n, later, max, sizer);
      }
    }
  }

  lemma FixedMessage(messages: seq<Message>, i: nat, a: Message, b: Message, n: nat, later: nat,
                     max: nat, sizer: Sizer)
    requires i < |messages| && TextsWithin(messages, n - 3) && 3 <= n <= later
    requires PassedMessage(messages[i], a, n, max, sizer) && PassedMessage(messages[i], b, later, max, sizer)
    ensures a == b
  {
    var m := messages[i];
    if m.calls.Some? {
      forall j | 0 <= j < |m.calls.value| ensures a.calls.value[j] == b.calls.value[j] {
        var call := m.calls.value[j];
        assert PassedCall(call, a.calls.value[j], n, max, sizer);
        assert PassedCall(call, b.calls.value[j], later, max, sizer);
        if call.Call? {
          forall k | 0 <= k < |call.args|
            ensures Passes(call.args[k].value, n, max, sizer) == Passes(call.args[k].value, later, max, sizer)
          {
            ValueReachesFixpoint(call.args[k].value, n, max, sizer);
          }
          assert a.calls.value[j].args == b.calls.value[j].args;
        }
      }
      assert a.calls.value == b.calls.value;
    }
  }
}
