/**
 The life of one translation stream, from an accepted request to the next one:
 its events, cancellations and errors, with any other public call in between.
 */
module Streaming {
  import opened Wrappers
  import opened Profiles
  import opened Transitions
  import opened Runs

  // Calls that start a new stream or forget the last one.
  predicate Resets(s: State, op: Op) {
    match op
    case BeginTranslation => BeginTranslationOf(s).Success?
    case BeginDocument => BeginDocumentOf(s).Success?
    case ClearWorkspace => true
    case _ => false
  }

  predicate Continues(s: State, op: Op) {
    !Resets(s, op)
  }

  // ----- What each call does to a stream -----

  datatype Stream = Stream(
    output: string, partialOutput: bool, usage: Option<Usage>, lastSequence: Option<U64>, status: AppStatus)

  function StreamOf(s: State): Stream {
    Stream(s.output, s.partialOutput, s.usage, s.lastSequence, s.status)
  }

  function AfterEvent(v: Stream, event: TranslationEvent): Stream {
    var next := v.(lastSequence := Some(event.sequence));
    match event
    case Started(_) => next.(status := if v.status == Cancelling then Cancelling else Translating)
    case TextDelta(_, text) => next.(output := v.output + text, partialOutput := true)
    case CompletedEvent(_, usage) => next.(usage := usage, status := Completed, partialOutput := false)
    case CancelledEvent(_) => next.(status := Cancelled, partialOutput := v.output != "")
    case FailedEvent(_, _) => next.(status := Failed, partialOutput := v.output != "")
  }

  // A dropped connection leaves a running stream alone.
  function AfterDrop(s: State): Stream {
    var v := StreamOf(s);
    if s.status.IsStreaming() then v
    else v.(status := if s.activeProvider.Some? then Ready else Failed)
  }

  // The stream after a call that does not reset it. Only the two connection
  // calls depend on whether they are accepted.
  function Streamed(s: State, op: Op, accepted: bool): Stream {
    var v := StreamOf(s);
    match op
    case StreamEvent(event) => if EventRefusal(s, event).None? then AfterEvent(v, event) else v
    case RequestCancellation => if s.status == Translating then v.(status := Cancelling) else v
    case RecordStreamError(_) => v.(status := Cancelling, partialOutput := s.output != "")
    case RecordClientError(_) => v.(status := Failed)
    case RecordOperationFailure(_) => v.(status := Failed, partialOutput := s.output != "")
    case SetDocumentOutput(text) => v.(output := text, partialOutput := true)
    case CompleteDocument(text) => v.(output := text, partialOutput := false, status := Completed)
    case CancelDocument(text) => v.(output := text, partialOutput := text != "", status := Cancelled)
    case PauseDocument(text) => v.(output := text, partialOutput := text != "", status := Ready)
    case FailDocument(text, _) => v.(output := text, partialOutput := text != "", status := Failed)
    case ProviderFailed(_) => AfterDrop(s)
    case StorageLost(_) => AfterDrop(s)
    case ConnectionFailed(profile, _) => if s.pendingProvider == Some(profile) then AfterDrop(s) else v
    case BeginConnection(_, _) => if accepted then v.(status := Connecting) else v
    case Connected(_, _, _) => if accepted then v.(status := Ready) else v
    case _ => v
  }

  // A reset leaves an empty stream, translating after a request or document job
  // and idle after a clearing.
  lemma {:induction false} ResetStep(rule: ModelRule, s: State, op: Op)
    requires Resets(s, op)
    ensures StreamOf(After(rule, s, op)) ==
              Stream("", false, None, None,
                     if !op.ClearWorkspace? then Translating
                     else if s.activeProvider.Some? then Ready else Disconnected)
  {
  }

  lemma {:induction false} StreamStep(rule: ModelRule, s: State, op: Op)
    requires Continues(s, op)
    ensures StreamOf(After(rule, s, op)) == Streamed(s, op, Accepts(rule, s, op))
  {
    if IsConnectionOp(op) {
      ConnectionStep(rule, s, op);
    } else if IsStreamWriter(op) {
      WriterStep(rule, s, op);
    } else if op.StreamEvent? {
      EventStep(rule, s, op.event);
    } else {
      OtherStep(rule, s, op);
    }
  }

  predicate IsStreamWriter(op: Op) {
    op.RecordClientError? || op.RecordOperationFailure? || op.SetDocumentOutput? || op.CompleteDocument?
    || op.CancelDocument? || op.PauseDocument? || op.FailDocument?
  }

  predicate IsConnectionOp(op: Op) {
    op.ProviderFailed? || op.StorageLost? || op.ConnectionFailed? || op.BeginConnection? || op.Connected?
  }

  lemma {:induction false} ConnectionStep(rule: ModelRule, s: State, op: Op)
    requires IsConnectionOp(op)
    ensures StreamOf(After(rule, s, op)) == Streamed(s, op, Accepts(rule, s, op))
  {
  }

  lemma {:induction false} WriterStep(rule: ModelRule, s: State, op: Op)
    requires IsStreamWriter(op)
    ensures StreamOf(After(rule, s, op)) == Streamed(s, op, Accepts(rule, s, op))
  {
  }

  lemma {:induction false} EventStep(rule: ModelRule, s: State, event: TranslationEvent)
    ensures StreamOf(After(rule, s, StreamEvent(event))) == Streamed(s, StreamEvent(event), true)
    ensures After(rule, s, StreamEvent(event)).activeProvider == s.activeProvider
  {
  }

  lemma {:induction false} OtherStep(rule: ModelRule, s: State, op: Op)
    requires Continues(s, op) && !IsConnectionOp(op) && !IsStreamWriter(op) && !op.StreamEvent?
    ensures StreamOf(After(rule, s, op)) == Streamed(s, op, Accepts(rule, s, op))
  {
  }

  // The event that a call adds to the accepted log, if any.
  function Logged(s: State, op: Op): seq<TranslationEvent> {
    if op.StreamEvent? && EventRefusal(s, op.event).None? then [op.event] else []
  }

  function AcceptedEvents(rule: ModelRule, s: State, ops: seq<Op>): seq<TranslationEvent>
    decreases |ops|
  {
    if ops == [] then [] else Logged(s, ops[0]) + AcceptedEvents(rule, After(rule, s, ops[0]), ops[1..])
  }

  lemma {:induction false} LogSplits(rule: ModelRule, s: State, log: seq<TranslationEvent>, ops: seq<Op>)
    requires ops != []
    ensures log + AcceptedEvents(rule, s, ops)
         == log + Logged(s, ops[0]) + AcceptedEvents(rule, After(rule, s, ops[0]), ops[1..])
  {
  }

  lemma {:induction false} LogEnds(rule: ModelRule, s: State, log: seq<TranslationEvent>)
    ensures log + AcceptedEvents(rule, s, []) == log
  {
  }

  // ----- Order and usage, whatever else is called -----

  // Started first and only once, sequence numbers strictly increasing.
  predicate WellOrdered(log: seq<TranslationEvent>) {
    && (log != [] ==> log[0].Started?)
    && (forall i :: 0 < i < |log| ==> !log[i].Started?)
    && (forall i, j :: 0 <= i < j < |log| ==> log[i].sequence < log[j].sequence)
  }

  // The usage of the last completion, if there was one.
  function UsageOf(log: seq<TranslationEvent>): Option<Usage> {
    if log == [] then None
    else
      var last := log[|log| - 1];
      if last.CompletedEvent? then last.usage else UsageOf(log[..|log| - 1])
  }

  predicate Records(v: Stream, log: seq<TranslationEvent>) {
    && WellOrdered(log)
    && v.lastSequence == (if log == [] then None else Some(log[|log| - 1].sequence))
    && v.usage == UsageOf(log)
  }

  lemma {:induction false} WellOrderedAppend(log: seq<TranslationEvent>, event: TranslationEvent)
    requires WellOrdered(log)
    requires if log == [] then event.Started? else !event.Started? && log[|log| - 1].sequence < event.sequence
    ensures WellOrdered(log + [event])
  {
    var longer := log + [event];
    forall i, j | 0 <= i < j < |longer|
      ensures longer[i].sequence < longer[j].sequence
    {
      if j == |log| && i < |log| - 1 { assert log[i].sequence < log[|log| - 1].sequence; }
    }
  }

  // An event is accepted exactly when no terminal status was reached and the
  // accepted events stay well ordered with it.
  lemma {:induction false} EventAcceptedExactly(s: State, log: seq<TranslationEvent>, event: TranslationEvent)
    requires Records(StreamOf(s), log)
    ensures EventRefusal(s, event).None? <==> !s.status.IsTerminal() && WellOrdered(log + [event])
  {
    var longer := log + [event];
    assert longer[|log|] == event;
    if EventRefusal(s, event).None? {
      WellOrderedAppend(log, event);
    } else if log == [] {
      assert longer[0] == event;
    } else {
      assert longer[|log| - 1] == log[|log| - 1];
    }
  }

  lemma {:induction false} UsageAppend(log: seq<TranslationEvent>, event: TranslationEvent)
    ensures UsageOf(log + [event]) == if event.CompletedEvent? then event.usage else UsageOf(log)
  {
    assert (log + [event])[..|log + [event]| - 1] == log;
  }

  lemma {:induction false} EventRecords(v: Stream, log: seq<TranslationEvent>, event: TranslationEvent)
    requires Records(v, log) && WellOrdered(log + [event])
    ensures Records(AfterEvent(v, event), log + [event])
  {
    UsageAppend(log, event);
  }

  lemma {:induction false} StreamedRecords(s: State, log: seq<TranslationEvent>, op: Op, accepted: bool)
    requires Records(StreamOf(s), log)
    ensures Records(Streamed(s, op, accepted), log + Logged(s, op))
  {
    if Logged(s, op) == [] {
      assert log + Logged(s, op) == log;
    } else {
      EventAcceptedExactly(s, log, op.event);
      EventRecords(StreamOf(s), log, op.event);
    }
  }

  // With no obligation on the caller: until the next reset, the accepted events
  // of any run are well ordered, and the usage is that of the last completion.
  lemma {:induction false} EventsAlwaysOrdered(
      rule: ModelRule, s: State, log: seq<TranslationEvent>, ops: seq<Op>)
    requires Records(StreamOf(s), log) && Every(rule, s, ops, Continues)
    ensures Records(StreamOf(Run(rule, s, ops)), log + AcceptedEvents(rule, s, ops))
    decreases |ops|
  {
    if ops == [] {
      LogEnds(rule, s, log);
    } else {
      StreamStep(rule, s, ops[0]);
      StreamedRecords(s, log, ops[0], Accepts(rule, s, ops[0]));
      EventsAlwaysOrdered(rule, After(rule, s, ops[0]), log + Logged(s, ops[0]), ops[1..]);
      LogSplits(rule, s, log, ops);
    }
  }

  // ----- Output and status as functions of the accepted events -----

  // The text of all deltas, in order.
  function Deltas(log: seq<TranslationEvent>): string {
    if log == [] then ""
    else
      var last := log[|log| - 1];
      Deltas(log[..|log| - 1]) + (if last.TextDelta? then last.text else "")
  }

  predicate EndsIn(status: AppStatus, log: seq<TranslationEvent>) {
    log != [] &&
    match status
    case Completed => log[|log| - 1].CompletedEvent?
    case Cancelled => log[|log| - 1].CancelledEvent?
    case Failed => log[|log| - 1].FailedEvent?
    case _ => false
  }

  // The stream runs, or it ended in a terminal event that tells whether the
  // output is partial.
  predicate StatusMatches(v: Stream, log: seq<TranslationEvent>) {
    && (v.status.IsStreaming() || EndsIn(v.status, log))
    && (v.status == Completed ==> !v.partialOutput)
    && (v.status == Cancelled || v.status == Failed ==> v.partialOutput == (v.output != ""))
  }

  predicate Follows(v: Stream, log: seq<TranslationEvent>) {
    Records(v, log) && v.output == Deltas(log) && StatusMatches(v, log)
  }

  // A dropped connection is harmless while the stream runs or after it failed
  // without a provider.
  predicate DropIsHarmless(s: State) {
    s.status.IsStreaming() || (s.status == Failed && s.activeProvider.None?)
  }

  // What the caller owes while a stream is followed: events, cancellations,
  // stream errors and calls that do not write the stream are free; the others
  // must agree with the events that were accepted.
  predicate Respects(s: State, log: seq<TranslationEvent>, op: Op, accepted: bool) {
    match op
    case RecordClientError(_) => EndsIn(Failed, log) && s.partialOutput == (s.output != "")
    case RecordOperationFailure(_) => EndsIn(Failed, log)
    case SetDocumentOutput(text) =>
      text == s.output && s.status != Completed && (s.status.IsTerminal() ==> text != "")
    case CompleteDocument(text) => text == s.output && EndsIn(Completed, log)
    case CancelDocument(text) => text == s.output && EndsIn(Cancelled, log)
    case FailDocument(text, _) => text == s.output && EndsIn(Failed, log)
    case PauseDocument(_) => false
    case ProviderFailed(_) => DropIsHarmless(s)
    case StorageLost(_) => DropIsHarmless(s)
    case ConnectionFailed(profile, _) => s.pendingProvider == Some(profile) ==> DropIsHarmless(s)
    case BeginConnection(_, _) => !accepted
    case Connected(_, _, _) => !accepted
    case _ => true
  }

  lemma {:induction false} DeltasAppend(log: seq<TranslationEvent>, event: TranslationEvent)
    ensures Deltas(log + [event]) == Deltas(log) + (if event.TextDelta? then event.text else "")
  {
    assert (log + [event])[..|log + [event]| - 1] == log;
  }

  lemma {:induction false} EventFollows(v: Stream, log: seq<TranslationEvent>, event: TranslationEvent)
    requires Follows(v, log) && !v.status.IsTerminal() && WellOrdered(log + [event])
    ensures Follows(AfterEvent(v, event), log + [event])
  {
    EventRecords(v, log, event);
    DeltasAppend(log, event);
    EventMatches(v, log, event);
  }

  lemma {:induction false} EventMatches(v: Stream, log: seq<TranslationEvent>, event: TranslationEvent)
    requires v.status.IsStreaming()
    ensures StatusMatches(AfterEvent(v, event), log + [event])
  {
  }

  lemma {:induction false} ConnectionFollows(s: State, log: seq<TranslationEvent>, op: Op, accepted: bool)
    requires Follows(StreamOf(s), log) && IsConnectionOp(op)
    ensures Follows(Streamed(s, op, accepted), log) <==> Respects(s, log, op, accepted)
  {
  }

  lemma {:induction false} WriterFollows(s: State, log: seq<TranslationEvent>, op: Op, accepted: bool)
    requires Follows(StreamOf(s), log) && IsStreamWriter(op)
    ensures Follows(Streamed(s, op, accepted), log) <==> Respects(s, log, op, accepted)
  {
  }

  // The obligation is exact.
  lemma {:induction false} StreamedFollows(s: State, log: seq<TranslationEvent>, op: Op, accepted: bool)
    requires Follows(StreamOf(s), log)
    ensures Follows(Streamed(s, op, accepted), log + Logged(s, op)) <==> Respects(s, log, op, accepted)
  {
    if Logged(s, op) == [] {
      assert log + Logged(s, op) == log;
      if IsConnectionOp(op) {
        ConnectionFollows(s, log, op, accepted);
      } else if IsStreamWriter(op) {
        WriterFollows(s, log, op, accepted);
      }
    } else {
      EventAcceptedExactly(s, log, op.event);
      EventFollows(StreamOf(s), log, op.event);
    }
  }

  predicate RespectsThroughout(rule: ModelRule, s: State, log: seq<TranslationEvent>, ops: seq<Op>)
    decreases |ops|
  {
    ops != [] ==>
      && Respects(s, log, ops[0], Accepts(rule, s, ops[0]))
      && RespectsThroughout(rule, After(rule, s, ops[0]), log + Logged(s, ops[0]), ops[1..])
  }

  predicate FollowsThroughout(rule: ModelRule, s: State, log: seq<TranslationEvent>, ops: seq<Op>)
    decreases |ops|
  {
    && Follows(StreamOf(s), log)
    && (ops != [] ==> FollowsThroughout(rule, After(rule, s, ops[0]), log + Logged(s, ops[0]), ops[1..]))
  }

  // However events, cancellation requests, stream errors and all other calls
  // interleave: the output is the concatenation of the accepted deltas, and a
  // terminal status comes from the last event and tells whether the output is
  // partial, at every point of the run, if and only if every call meets the
  // obligation.
  lemma {:induction false} StreamRefinement(rule: ModelRule, s: State, log: seq<TranslationEvent>, ops: seq<Op>)
    requires Follows(StreamOf(s), log) && Every(rule, s, ops, Continues)
    ensures FollowsThroughout(rule, s, log, ops) <==> RespectsThroughout(rule, s, log, ops)
    ensures RespectsThroughout(rule, s, log, ops) ==>
              Follows(StreamOf(Run(rule, s, ops)), log + AcceptedEvents(rule, s, ops))
    decreases |ops|
  {
    if ops == [] {
      LogEnds(rule, s, log);
    } else {
      StreamStep(rule, s, ops[0]);
      StreamedFollows(s, log, ops[0], Accepts(rule, s, ops[0]));
      if Respects(s, log, ops[0], Accepts(rule, s, ops[0])) {
        StreamRefinement(rule, After(rule, s, ops[0]), log + Logged(s, ops[0]), ops[1..]);
      }
      LogSplits(rule, s, log, ops);
    }
  }

  lemma {:induction false} BeginStep(rule: ModelRule, s: State, op: Op)
    requires (op.BeginTranslation? || op.BeginDocument?) && Accepts(rule, s, op)
    ensures After(rule, s, op) == StartedFrom(s) && s.activeProvider.Some?
  {
  }

  // A stream opens empty.
  lemma {:induction false} StartFollows(s: State)
    ensures Follows(StreamOf(StartedFrom(s)), []) && StartedFrom(s).status == Translating
  {
  }

  // The same from any accepted request or document job on.
  lemma {:induction false} StreamFromRequest(rule: ModelRule, s: State, begin: Op, ops: seq<Op>)
    requires (begin.BeginTranslation? || begin.BeginDocument?) && Accepts(rule, s, begin)
    requires Every(rule, After(rule, s, begin), ops, Continues)
    ensures var start := After(rule, s, begin);
            && Records(StreamOf(Run(rule, s, [begin] + ops)), AcceptedEvents(rule, start, ops))
            && (FollowsThroughout(rule, start, [], ops) <==> RespectsThroughout(rule, start, [], ops))
            && (RespectsThroughout(rule, start, [], ops) ==>
                  Follows(StreamOf(Run(rule, s, [begin] + ops)), AcceptedEvents(rule, start, ops)))
  {
    var start := After(rule, s, begin);
    BeginStep(rule, s, begin);
    StartFollows(s);
    EventsAlwaysOrdered(rule, start, [], ops);
    StreamRefinement(rule, start, [], ops);
    assert [] + AcceptedEvents(rule, start, ops) == AcceptedEvents(rule, start, ops);
    RunNext(rule, s, begin, ops, start);
  }

  // A simpler discipline suffices: no document call and no error record, no
  // connection call after the stream ended and no connection result without a
  // request.
  predicate Undisturbed(s: State, op: Op) {
    && !IsStreamWriter(op)
    && (IsConnectionOp(op) ==> s.status.IsStreaming())
    && (op.Connected? ==> s.pendingProvider.None?)
  }

  lemma {:induction false} UndisturbedRespects(rule: ModelRule, s: State, log: seq<TranslationEvent>, op: Op)
    requires Undisturbed(s, op)
    ensures Respects(s, log, op, Accepts(rule, s, op))
  {
  }

  lemma {:induction false} UndisturbedSuffices(rule: ModelRule, s: State, log: seq<TranslationEvent>, ops: seq<Op>)
    requires Every(rule, s, ops, Undisturbed)
    ensures RespectsThroughout(rule, s, log, ops)
    decreases |ops|
  {
    if ops != [] {
      UndisturbedRespects(rule, s, log, ops[0]);
      UndisturbedSuffices(rule, After(rule, s, ops[0]), log + Logged(s, ops[0]), ops[1..]);
    }
  }

  // ----- No way back to translating -----

  // Only an accepted first event makes a stream that does not translate
  // translate, and not while it is being cancelled.
  lemma {:induction false} TranslatingEntered(rule: ModelRule, s: State, op: Op)
    requires Continues(s, op) && s.status != Translating
    ensures After(rule, s, op).status == Translating <==>
              && op.StreamEvent? && op.event.Started? && s.lastSequence.None?
              && s.status != Cancelling && !s.status.IsTerminal()
  {
    StreamStep(rule, s, op);
    StreamedTranslates(s, op, Accepts(rule, s, op));
  }

  lemma {:induction false} StreamedTranslates(s: State, op: Op, accepted: bool)
    requires s.status != Translating
    ensures Streamed(s, op, accepted).status == Translating <==>
              && op.StreamEvent? && op.event.Started? && s.lastSequence.None?
              && s.status != Cancelling && !s.status.IsTerminal()
    ensures s.lastSequence.Some? ==> Streamed(s, op, accepted).lastSequence.Some?
  {
  }

  // Once its first event was accepted, a stream that has stopped translating
  // never translates again, whatever is called before the next reset.
  lemma {:induction false} NeverTranslatesAgain(rule: ModelRule, s: State, ops: seq<Op>)
    requires s.status != Translating && s.lastSequence.Some? && Every(rule, s, ops, Continues)
    ensures Run(rule, s, ops).status != Translating
    decreases |ops|
  {
    if ops != [] {
      StreamStep(rule, s, ops[0]);
      StreamedTranslates(s, ops[0], Accepts(rule, s, ops[0]));
      NeverTranslatesAgain(rule, After(rule, s, ops[0]), ops[1..]);
    }
  }

  // ----- Leaving a terminal status -----

  // The calls after which a stream that had ended has not ended any more.
  predicate Reopens(s: State, op: Op, accepted: bool) {
    match op
    case RecordStreamError(_) => true
    case PauseDocument(_) => true
    case ProviderFailed(_) => s.activeProvider.Some?
    case StorageLost(_) => s.activeProvider.Some?
    case ConnectionFailed(profile, _) => s.activeProvider.Some? && s.pendingProvider == Some(profile)
    case BeginConnection(_, _) => accepted
    case Connected(_, _, _) => accepted
    case _ => false
  }

  lemma {:induction false} StreamedLeaves(s: State, op: Op, accepted: bool)
    requires s.status.IsTerminal()
    ensures !Streamed(s, op, accepted).status.IsTerminal() <==> Reopens(s, op, accepted)
  {
  }

  // One call leaves a terminal status if and only if it is one of those.
  lemma {:induction false} TerminalLeftExactly(rule: ModelRule, s: State, op: Op)
    requires s.status.IsTerminal() && Continues(s, op)
    ensures !After(rule, s, op).status.IsTerminal() <==> Reopens(s, op, Accepts(rule, s, op))
  {
    StreamStep(rule, s, op);
    StreamedLeaves(s, op, Accepts(rule, s, op));
  }

  predicate IsStopping(s: State) {
    s.status == Cancelling || s.status.IsTerminal()
  }

  // A dropped connection leaves a stream that is being cancelled alone, and a
  // stream error goes from one stopping status to another.
  predicate KeepsStopping(s: State, op: Op, accepted: bool) {
    match op
    case PauseDocument(_) => false
    case ProviderFailed(_) => s.status == Cancelling || s.activeProvider.None?
    case StorageLost(_) => s.status == Cancelling || s.activeProvider.None?
    case ConnectionFailed(profile, _) =>
      s.pendingProvider == Some(profile) ==> s.status == Cancelling || s.activeProvider.None?
    case BeginConnection(_, _) => !accepted
    case Connected(_, _, _) => !accepted
    case _ => true
  }

  lemma {:induction false} StreamedStops(s: State, op: Op, accepted: bool)
    requires IsStopping(s)
    ensures Streamed(s, op, accepted).status == Cancelling || Streamed(s, op, accepted).status.IsTerminal() <==>
              KeepsStopping(s, op, accepted)
  {
  }

  // A stream that is being cancelled or has ended stays so throughout a run if
  // and only if no call of the run takes it out.
  lemma {:induction false} StoppingRun(rule: ModelRule, s: State, ops: seq<Op>)
    requires IsStopping(s) && Every(rule, s, ops, Continues)
    ensures Throughout(rule, s, ops, IsStopping) <==>
              Every(rule, s, ops, (t: State, op: Op) => KeepsStopping(t, op, Accepts(rule, t, op)))
    decreases |ops|
  {
    if ops != [] {
      StreamStep(rule, s, ops[0]);
      StreamedStops(s, ops[0], Accepts(rule, s, ops[0]));
      if KeepsStopping(s, ops[0], Accepts(rule, s, ops[0])) {
        StoppingRun(rule, After(rule, s, ops[0]), ops[1..]);
      }
    }
  }

  // ----- At most one terminal event -----

  // No event before the last is terminal.
  predicate SingleTerminal(log: seq<TranslationEvent>) {
    forall i :: 0 <= i < |log| - 1 ==> !log[i].IsTerminal()
  }

  predicate IsFinished(log: seq<TranslationEvent>) {
    log != [] && log[|log| - 1].IsTerminal()
  }

  // After the terminal event, no call of the run leaves the terminal status
  // while a larger sequence number is left.
  predicate NeverReopens(rule: ModelRule, s: State, log: seq<TranslationEvent>, ops: seq<Op>)
    decreases |ops|
  {
    ops != [] ==>
      && !(IsFinished(log) && s.lastSequence != Some(U64_MAX) && Reopens(s, ops[0], Accepts(rule, s, ops[0])))
      && NeverReopens(rule, After(rule, s, ops[0]), log + Logged(s, ops[0]), ops[1..])
  }

  // At every point of the run, with any one event that may come next, at most
  // one terminal event was accepted, and it comes last.
  ghost predicate AlwaysSingle(rule: ModelRule, s: State, log: seq<TranslationEvent>, ops: seq<Op>)
    decreases |ops|
  {
    && (forall event :: SingleTerminal(log + Logged(s, StreamEvent(event))))
    && (ops != [] ==> AlwaysSingle(rule, After(rule, s, ops[0]), log + Logged(s, ops[0]), ops[1..]))
  }

  predicate IsClosed(v: Stream, log: seq<TranslationEvent>) {
    && Records(v, log)
    && SingleTerminal(log)
    && (IsFinished(log) ==> v.status.IsTerminal() || v.lastSequence == Some(U64_MAX))
  }

  lemma {:induction false} StreamedClosed(s: State, log: seq<TranslationEvent>, op: Op, accepted: bool)
    requires IsClosed(StreamOf(s), log)
    requires IsFinished(log) && s.lastSequence != Some(U64_MAX) ==> !Reopens(s, op, accepted)
    ensures IsClosed(Streamed(s, op, accepted), log + Logged(s, op))
  {
    StreamedRecords(s, log, op, accepted);
    if Logged(s, op) == [] {
      assert log + Logged(s, op) == log;
      QuietStaysClosed(s, log, op, accepted);
    } else {
      EventCloses(StreamOf(s), log, op.event);
    }
  }

  lemma {:induction false} QuietStaysClosed(s: State, log: seq<TranslationEvent>, op: Op, accepted: bool)
    requires Logged(s, op) == []
    requires IsFinished(log) ==> s.status.IsTerminal() || s.lastSequence == Some(U64_MAX)
    requires IsFinished(log) && s.lastSequence != Some(U64_MAX) ==> !Reopens(s, op, accepted)
    ensures IsFinished(log) ==>
              Streamed(s, op, accepted).status.IsTerminal() || Streamed(s, op, accepted).lastSequence == Some(U64_MAX)
  {
    if s.status.IsTerminal() { StreamedLeaves(s, op, accepted); }
    LastKept(s, op, accepted);
  }

  lemma {:induction false} LastKept(s: State, op: Op, accepted: bool)
    requires Logged(s, op) == []
    ensures Streamed(s, op, accepted).lastSequence == s.lastSequence
  {
  }

  lemma {:induction false} EventCloses(v: Stream, log: seq<TranslationEvent>, event: TranslationEvent)
    requires !IsFinished(log) && SingleTerminal(log)
    ensures SingleTerminal(log + [event])
    ensures IsFinished(log + [event]) ==> AfterEvent(v, event).status.IsTerminal()
  {
    assert forall i :: 0 <= i < |log| ==> (log + [event])[i] == log[i];
  }

  lemma {:induction false} ClosedIsSingle(s: State, log: seq<TranslationEvent>)
    requires IsClosed(StreamOf(s), log)
    ensures forall event :: SingleTerminal(log + Logged(s, StreamEvent(event)))
  {
    forall event
      ensures SingleTerminal(log + Logged(s, StreamEvent(event)))
    {
      StreamedClosed(s, log, StreamEvent(event), true);
    }
  }

  // A reopened stream accepts one more terminal event.
  lemma {:induction false} ReopenedAcceptsMore(s: State, log: seq<TranslationEvent>)
    requires Records(StreamOf(s), log) && IsFinished(log)
    requires !s.status.IsTerminal() && s.lastSequence != Some(U64_MAX)
    ensures exists event :: !SingleTerminal(log + Logged(s, StreamEvent(event)))
  {
    var extra := CompletedEvent(s.lastSequence.value + 1, None);
    assert Logged(s, StreamEvent(extra)) == [extra];
    assert (log + [extra])[|log| - 1].IsTerminal();
    assert !SingleTerminal(log + Logged(s, StreamEvent(extra)));
  }

  // "At most one terminal event" holds at every point of a run of any public
  // calls up to the next reset if and only if none of them leaves the terminal
  // status after the terminal event while sequence numbers remain.
  lemma {:induction false} SingleTerminalExactly(rule: ModelRule, s: State, log: seq<TranslationEvent>, ops: seq<Op>)
    requires IsClosed(StreamOf(s), log) && Every(rule, s, ops, Continues)
    ensures AlwaysSingle(rule, s, log, ops) <==> NeverReopens(rule, s, log, ops)
    decreases |ops|
  {
    ClosedIsSingle(s, log);
    if ops != [] {
      var accepted, next, longer := Accepts(rule, s, ops[0]), After(rule, s, ops[0]), log + Logged(s, ops[0]);
      StreamStep(rule, s, ops[0]);
      if IsFinished(log) && s.lastSequence != Some(U64_MAX) && Reopens(s, ops[0], accepted) {
        StreamedLeaves(s, ops[0], accepted);
        assert longer == log;
        StreamedRecords(s, log, ops[0], accepted);
        ReopenedAcceptsMore(next, log);
      } else {
        StreamedClosed(s, log, ops[0], accepted);
        SingleTerminalExactly(rule, next, longer, ops[1..]);
      }
    }
  }

  // In particular from any accepted request or document job on.
  lemma {:induction false} SingleTerminalFromRequest(rule: ModelRule, s: State, begin: Op, ops: seq<Op>)
    requires (begin.BeginTranslation? || begin.BeginDocument?) && Accepts(rule, s, begin)
    requires Every(rule, After(rule, s, begin), ops, Continues)
    ensures AlwaysSingle(rule, After(rule, s, begin), [], ops) <==> NeverReopens(rule, After(rule, s, begin), [], ops)
  {
    BeginStep(rule, s, begin);
    StartFollows(s);
    SingleTerminalExactly(rule, After(rule, s, begin), [], ops);
  }

  // ----- Streams with two completions -----

  lemma {:induction false} AcceptsThen(rule: ModelRule, s: State, event: TranslationEvent, rest: seq<Op>)
      returns (next: State)
    requires EventRefusal(s, event).None?
    ensures AcceptedEvents(rule, s, [StreamEvent(event)] + rest) == [event] + AcceptedEvents(rule, next, rest)
    ensures StreamOf(next) == AfterEvent(StreamOf(s), event) && next.activeProvider == s.activeProvider
  {
    EventStep(rule, s, event);
    next := After(rule, s, StreamEvent(event));
    assert ([StreamEvent(event)] + rest)[1..] == rest;
  }

  predicate IsLate(op: Op) {
    op == RecordStreamError("late") || op == ProviderFailed(InternalError("late"))
  }

  lemma {:induction false} ReopensThen(rule: ModelRule, s: State, late: Op, rest: seq<Op>) returns (next: State)
    requires s.status == Completed && s.activeProvider.Some? && IsLate(late)
    ensures AcceptedEvents(rule, s, [late] + rest) == AcceptedEvents(rule, next, rest)
    ensures !next.status.IsTerminal() && next.lastSequence == s.lastSequence
  {
    StreamStep(rule, s, late);
    next := After(rule, s, late);
    assert ([late] + rest)[1..] == rest;
  }

  // A late stream error lets a completed stream complete once more, and so does
  // a late failure of the provider, with no stream error at all.
  lemma {:induction false} TwoCompletions(rule: ModelRule, s: State, late: Op)
    requires Accepts(rule, s, BeginTranslation) && IsLate(late)
    ensures AcceptedEvents(rule, After(rule, s, BeginTranslation),
                           [StreamEvent(Started(0)), StreamEvent(CompletedEvent(1, None)), late,
                            StreamEvent(CompletedEvent(2, None))])
         == [Started(0), CompletedEvent(1, None), CompletedEvent(2, None)]
  {
    BeginStep(rule, s, BeginTranslation);
    CompletesTwice(rule, StartedFrom(s), late);
  }

  lemma {:induction false} CompletesTwice(rule: ModelRule, s: State, late: Op)
    requires s.status == Translating && s.lastSequence.None? && s.activeProvider.Some? && IsLate(late)
    ensures AcceptedEvents(rule, s,
                           [StreamEvent(Started(0)), StreamEvent(CompletedEvent(1, None)), late,
                            StreamEvent(CompletedEvent(2, None))])
         == [Started(0), CompletedEvent(1, None), CompletedEvent(2, None)]
  {
    var rest := [StreamEvent(CompletedEvent(1, None)), late, StreamEvent(CompletedEvent(2, None))];
    var next := AcceptsThen(rule, s, Started(0), rest);
    CompletesAround(rule, next, late);
  }

  lemma {:induction false} CompletesAround(rule: ModelRule, s: State, late: Op)
    requires s.status == Translating && s.lastSequence == Some(0) && s.activeProvider.Some? && IsLate(late)
    ensures AcceptedEvents(rule, s,
                           [StreamEvent(CompletedEvent(1, None)), late, StreamEvent(CompletedEvent(2, None))])
         == [CompletedEvent(1, None), CompletedEvent(2, None)]
  {
    var again := StreamEvent(CompletedEvent(2, None));
    var completed := AcceptsThen(rule, s, CompletedEvent(1, None), [late, again]);
    var reopened := ReopensThen(rule, completed, late, [again]);
    var last := AcceptsThen(rule, reopened, CompletedEvent(2, None), []);
  }
}
