/** What a workspace remembers: document jobs, and the clearing of earlier work. */
module Documents {
  import opened Wrappers
  import opened Profiles
  import opened Transitions
  import opened Invariant
  import opened Runs

  // Every workspace operation except those that replace the request inputs or
  // the preferences.
  predicate IsWork(op: Op) {
    IsWorkspaceOp(op) && !op.SetInput? && !op.SetPreference?
  }

  lemma {:induction false} WorkKeepsSettings(rule: ModelRule, s: State, op: Op)
    requires IsWork(op)
    ensures After(rule, s, op).draft.(sourceText := "") == s.draft.(sourceText := "")
    ensures After(rule, s, op).preferences == s.preferences
  {
  }

  lemma {:induction false} SameCleared(s: State, t: State)
    requires SameProviders(s, t) && s.preferences == t.preferences
    requires s.draft.(sourceText := "") == t.draft.(sourceText := "")
    ensures ClearWorkspaceOf(s) == ClearWorkspaceOf(t)
  {
  }

  // Clearing the workspace leaves no trace of the work before it: whatever
  // translations, document jobs, cancellations, errors and routing decisions came
  // first, the cleared state is the one that clearing at once would have given.
  lemma {:induction false} ClearForgetsWork(rule: ModelRule, s: State, ops: seq<Op>)
    requires forall i :: 0 <= i < |ops| ==> IsWork(ops[i])
    ensures Run(rule, s, ops + [ClearWorkspace]) == ClearWorkspaceOf(s)
    decreases |ops|
  {
    if ops == [] {
      assert ops + [ClearWorkspace] == [ClearWorkspace];
      RunNext(rule, s, ClearWorkspace, [], ClearWorkspaceOf(s));
    } else {
      var next := After(rule, s, ops[0]);
      assert (ops + [ClearWorkspace])[1..] == ops[1..] + [ClearWorkspace];
      ClearForgetsWork(rule, next, ops[1..]);
      WorkspaceFrame(rule, s, ops[0]);
      WorkKeepsSettings(rule, s, ops[0]);
      SameCleared(s, next);
    }
  }

  predicate IsFinish(op: Op) {
    op.CompleteDocument? || op.CancelDocument? || op.PauseDocument? || op.FailDocument?
  }

  function Progress(texts: seq<string>): seq<Op> {
    if texts == [] then [] else [SetDocumentOutput(texts[0])] + Progress(texts[1..])
  }

  lemma {:induction false} ProgressOverwritten(rule: ModelRule, s: State, texts: seq<string>, finish: Op)
    requires IsFinish(finish)
    ensures Run(rule, s, Progress(texts) + [finish]) == After(rule, s, finish)
    decreases |texts|
  {
    if texts == [] {
      assert Progress(texts) + [finish] == [finish];
      RunNext(rule, s, finish, [], After(rule, s, finish));
    } else {
      var next := SetDocumentOutputOf(s, texts[0]);
      assert Progress(texts) + [finish] == [SetDocumentOutput(texts[0])] + (Progress(texts[1..]) + [finish]);
      RunNext(rule, s, SetDocumentOutput(texts[0]), Progress(texts[1..]) + [finish], next);
      ProgressOverwritten(rule, next, texts[1..], finish);
      FinishOverwrites(rule, s, texts[0], finish);
    }
  }

  lemma {:induction false} FinishOverwrites(rule: ModelRule, s: State, text: string, finish: Op)
    requires IsFinish(finish)
    ensures After(rule, SetDocumentOutputOf(s, text), finish) == After(rule, s, finish)
  {
  }

  // A document job ends with exactly the text it was finished with, whatever
  // progress it reported: the output is partial unless it is complete or empty,
  // the error is that of a failed job and absent otherwise, and a paused job can
  // begin again.
  lemma {:induction false} DocumentOutcome(rule: ModelRule, s: State, texts: seq<string>, finish: Op)
    requires Accepts(rule, s, BeginDocument) && IsFinish(finish)
    ensures var r := Run(rule, s, [BeginDocument] + (Progress(texts) + [finish]));
            && r.output == finish.text
            && (r.partialOutput <==> !finish.CompleteDocument? && finish.text != "")
            && r.error == (if finish.FailDocument? then Some(finish.error) else None)
            && (r.status.IsTerminal() <==> !finish.PauseDocument?)
            && r.usage == None && r.lastSequence == None
            && Accepts(rule, r, BeginDocument)
  {
    var start := StartedFrom(s);
    BeginDocumentStarts(rule, s);
    RunNext(rule, s, BeginDocument, Progress(texts) + [finish], start);
    ProgressOverwritten(rule, start, texts, finish);
    FinishOutcome(rule, s, finish);
  }

  lemma {:induction false} BeginDocumentStarts(rule: ModelRule, s: State)
    requires Accepts(rule, s, BeginDocument)
    ensures After(rule, s, BeginDocument) == StartedFrom(s) && BeginRefusal(s).None? && s.selectedModel.Some?
  {
  }

  lemma {:induction false} FinishOutcome(rule: ModelRule, s: State, finish: Op)
    requires BeginRefusal(s).None? && s.selectedModel.Some? && IsFinish(finish)
    ensures var r := After(rule, StartedFrom(s), finish);
            && r.output == finish.text
            && (r.partialOutput <==> !finish.CompleteDocument? && finish.text != "")
            && r.error == (if finish.FailDocument? then Some(finish.error) else None)
            && (r.status.IsTerminal() <==> !finish.PauseDocument?)
            && r.usage == None && r.lastSequence == None
            && Accepts(rule, r, BeginDocument)
  {
  }
}
