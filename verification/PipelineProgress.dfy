/** Every run of the worker ends, and ends with each message deleted or in the dead-letter queue. */
module PipelineProgress {
  import opened Domain
  import opened Pipeline
  import opened LedgerLaws
  import opened PipelineSafety
  import opened PipelineRuns

  // ---------- sums ----------

  function Total(s: seq<nat>): nat {
    if s == [] then 0 else s[0] + Total(s[1..])
  }

  lemma {:induction false} TotalUpdate(s: seq<nat>, i: nat, x: nat)
    requires i < |s|
    ensures Total(s[i := x]) + s[i] == Total(s) + x
  {
    if i == 0 {
      assert s[0 := x][1..] == s[1..];
    } else {
      assert s[i := x][1..] == s[1..][i - 1 := x];
      TotalUpdate(s[1..], i - 1, x);
    }
  }

  lemma {:induction false} TotalAppend(s: seq<nat>, x: nat)
    ensures Total(s + [x]) == Total(s) + x
  {
    if s == [] {
      assert [x][1..] == [];
    } else {
      assert (s + [x])[1..] == s[1..] + [x];
      TotalAppend(s[1..], x);
    }
  }

  // ---------- the measure ----------

  /** Steps a handler can still take with `left` keys to go. */
  function StepsLeft(phase: Phase, left: nat): nat {
    match phase
    case Stopped => 0
    case Deleting => 1
    case Fetching => 4 * left + 1
    case Inserting(_) => 4 * left
    case Notifying(_) => if left == 0 then 0 else 4 * left - 1
    case Committing(_, _) => if left == 0 then 0 else 4 * left - 2
  }

  function KeysLeft(w: State, h: nat): nat
    requires h < |w.handlers|
  {
    if Current(w, h) then |Keys(w, h)| - w.handlers[h].done else 0
  }

  function HandlerWeight(w: State, h: nat): nat
    requires h < |w.handlers|
  {
    StepsLeft(w.handlers[h].phase, KeysLeft(w, h))
  }

  /** One delivery: receive it, work through its keys, delete it, or let it expire. */
  function DeliveryCost(keys: seq<string>): nat { 4 * |keys| + 3 }

  function MessageWeight(message: Message): nat {
    var remaining := if message.received < MAX_RECEIVES then MAX_RECEIVES - message.received else 0;
    match message.place
    case QUEUED => remaining * DeliveryCost(message.keys) + 1
    case IN_FLIGHT => remaining * DeliveryCost(message.keys) + 2
    case _ => 0
  }

  function MessageWeights(w: State): seq<nat> {
    seq(|w.messages|, m requires 0 <= m < |w.messages| => MessageWeight(w.messages[m]))
  }

  function HandlerWeights(w: State): seq<nat> {
    seq(|w.handlers|, h requires 0 <= h < |w.handlers| => HandlerWeight(w, h))
  }

  function Measure(w: State): nat {
    Total(MessageWeights(w)) + Total(HandlerWeights(w))
  }

  /** The effect of a change of one message and of one handler. */
  lemma MeasureMoved(w: State, v: State, m: nat, h: nat)
    requires m < |w.messages| && h < |w.handlers| && |v.messages| == |w.messages| && |v.handlers| == |w.handlers|
    requires SameKeys(w, v)
    requires forall n :: 0 <= n < |w.messages| && n != m ==> v.messages[n] == w.messages[n]
    requires forall g :: 0 <= g < |w.handlers| && g != h ==> v.handlers[g] == w.handlers[g]
    ensures Measure(v) + MessageWeight(w.messages[m]) + HandlerWeight(w, h)
         == Measure(w) + MessageWeight(v.messages[m]) + HandlerWeight(v, h)
  {
    hide StepsLeft;
    hide MessageWeight;
    assert MessageWeights(v) == MessageWeights(w)[m := MessageWeight(v.messages[m])];
    assert HandlerWeights(v) == HandlerWeights(w)[h := HandlerWeight(v, h)];
    hide MessageWeights;
    hide HandlerWeights;
    TotalUpdate(MessageWeights(w), m, MessageWeight(v.messages[m]));
    TotalUpdate(HandlerWeights(w), h, HandlerWeight(v, h));
  }

  /** The same, when only a message changed. */
  lemma MeasurePlaced(w: State, v: State, m: nat)
    requires m < |w.messages| && |v.messages| == |w.messages| && v.handlers == w.handlers
    requires SameKeys(w, v)
    requires forall n :: 0 <= n < |w.messages| && n != m ==> v.messages[n] == w.messages[n]
    ensures Measure(v) + MessageWeight(w.messages[m]) == Measure(w) + MessageWeight(v.messages[m])
  {
    hide StepsLeft;
    hide MessageWeight;
    assert MessageWeights(v) == MessageWeights(w)[m := MessageWeight(v.messages[m])];
    assert HandlerWeights(v) == HandlerWeights(w);
    TotalUpdate(MessageWeights(w), m, MessageWeight(v.messages[m]));
  }

  // ---------- every worker step decreases it ----------

  lemma ReceiveDecreases(env: Env, w: State, m: nat)
    requires Enabled(env, w, Receive(m))
    requires Inv(env, w)
    ensures Measure(Received(w, m)) < Measure(w)
  {
    hide Inv;
    var v := Received(w, m);
    var x := w.(messages := v.messages);
    MeasurePlaced(w, x, m);
    assert MessageWeights(v) == MessageWeights(x);
    assert HandlerWeights(v) == HandlerWeights(x) + [HandlerWeight(v, |w.handlers|)] by {
      hide StepsLeft;
    }
    TotalAppend(HandlerWeights(x), HandlerWeight(v, |w.handlers|));
    NewHandlerWeight(w, m);
    DeliveryPaid(w.messages[m]);
  }

  lemma NewHandlerWeight(w: State, m: nat)
    requires m < |w.messages|
    ensures HandlerWeight(Received(w, m), |w.handlers|) == 4 * |w.messages[m].keys| + 1
  {
  }

  lemma DeliveryPaid(message: Message)
    requires message.place == QUEUED && message.received < MAX_RECEIVES
    ensures MessageWeight(message.(place := IN_FLIGHT, received := message.received + 1)) + 4 * |message.keys| + 1
          < MessageWeight(message)
  {
    var r := MAX_RECEIVES - message.received;
    assert r * DeliveryCost(message.keys) == (r - 1) * DeliveryCost(message.keys) + DeliveryCost(message.keys);
  }

  lemma PlaceDecreases(env: Env, w: State, s: Step)
    requires Inv(env, w) && Enabled(env, w, s) && (s.Redrive? || s.Expire?)
    ensures Measure(Next(env, w, s)) < Measure(w)
  {
    hide LedgerOk;
    hide HandlersOk;
    hide OwnersOk;
    assert MessageOk(env, w.ledger, w.messages[s.m]);
    MeasurePlaced(w, Next(env, w, s), s.m);
  }

  lemma HandlerStepDecreases(env: Env, w: State, s: Step)
    requires Inv(env, w) && Enabled(env, w, s)
    requires s.Fetch? || s.Insert? || s.Notify? || s.Commit? || s.Fail?
    ensures Measure(Next(env, w, s)) < Measure(w)
  {
    hide LedgerOk;
    hide OwnersOk;
    hide MessagesOk;
    hide FromObject;
    hide AllStored;
    hide DraftFor;
    hide Holds;
    hide Measure;
    assert HandlerOk(env, w, s.h);
    hide HandlersOk;
    MeasureMoved(w, Next(env, w, s), w.handlers[s.h].message, s.h);
  }

  lemma DeleteDecreases(env: Env, w: State, h: nat, effective: bool)
    requires Inv(env, w) && Enabled(env, w, Delete(h, effective))
    ensures Measure(DeleteMessage(w, h, effective)) < Measure(w)
  {
    hide Inv;
    hide Measure;
    MeasureMoved(w, DeleteMessage(w, h, effective), w.handlers[h].message, h);
  }

  lemma StepDecreases(env: Env, w: State, s: Step)
    requires Inv(env, w) && Enabled(env, w, s)
    ensures if s.Override? then Measure(Next(env, w, s)) == Measure(w) else Measure(Next(env, w, s)) < Measure(w)
  {
    hide Inv;
    match s {
      case Receive(m) => ReceiveDecreases(env, w, m);
      case Delete(h, effective) => DeleteDecreases(env, w, h, effective);
      case Override(_, _) =>
        var v := Next(env, w, s);
        assert MessageWeights(v) == MessageWeights(w) && HandlerWeights(v) == HandlerWeights(w);
      case Redrive(_) => PlaceDecreases(env, w, s);
      case Expire(_) => PlaceDecreases(env, w, s);
      case _ => HandlerStepDecreases(env, w, s);
    }
  }

  // ---------- runs ----------

  function WorkerSteps(steps: seq<Step>): nat {
    if steps == [] then 0 else (if steps[0].Override? then 0 else 1) + WorkerSteps(steps[1..])
  }

  lemma {:induction false} RunSpends(env: Env, w: State, steps: seq<Step>)
    requires Inv(env, w) && Possible(env, w, steps)
    ensures WorkerSteps(steps) + Measure(Run(env, w, steps)) <= Measure(w)
    decreases |steps|
  {
    hide Inv;
    hide Enabled;
    hide Next;
    hide Measure;
    if steps != [] {
      StepKeeps(env, w, steps[0]);
      StepDecreases(env, w, steps[0]);
      RunSpends(env, Next(env, w, steps[0]), steps[1..]);
    }
  }

  /** Three deliveries for every message, and its move to the dead-letter queue. */
  function Budget(inbox: seq<seq<string>>): nat {
    if inbox == [] then 0 else 3 * DeliveryCost(inbox[0]) + 1 + Budget(inbox[1..])
  }

  lemma {:induction false} InitialMeasure(inbox: seq<seq<string>>)
    ensures Measure(Initial(inbox)) == Budget(inbox)
  {
    assert HandlerWeights(Initial(inbox)) == [];
    if inbox == [] {
      assert MessageWeights(Initial(inbox)) == [];
    } else {
      InitialMeasure(inbox[1..]);
      assert HandlerWeights(Initial(inbox[1..])) == [];
      var all, rest := MessageWeights(Initial(inbox)), MessageWeights(Initial(inbox[1..]));
      assert all[0] == 3 * DeliveryCost(inbox[0]) + 1;
      assert all[1..] == rest;
    }
  }

  /** However the handlers interleave and fail, the worker takes at most this many steps. */
  lemma RunsAreBounded(env: Env, inbox: seq<seq<string>>, steps: seq<Step>)
    requires Possible(env, Initial(inbox), steps)
    ensures WorkerSteps(steps) <= Budget(inbox)
  {
    hide Measure;
    InitialOk(env, inbox);
    InitialMeasure(inbox);
    RunSpends(env, Initial(inbox), steps);
  }

  ghost predicate Finished(env: Env, w: State) {
    forall s :: Enabled(env, w, s) ==> s.Override?
  }

  lemma OwnerCanFail(env: Env, w: State, k: string)
    requires OwnersOk(w) && HandlersOk(env, w) && k in w.ledger.pending
    ensures Enabled(env, w, Fail(w.ledger.pending[k].owner, false))
  {
    var h := w.ledger.pending[k].owner;
    assert Holds(w, h, k) && HandlerOk(env, w, h);
  }

  /** A run that cannot go on has disposed of every message and every transaction. */
  lemma FinishedRuns(env: Env, inbox: seq<seq<string>>, steps: seq<Step>, m: nat)
    requires Possible(env, Initial(inbox), steps) && m < |inbox|
    requires Finished(env, Run(env, Initial(inbox), steps))
    ensures At(Run(env, Initial(inbox), steps), m, DELETED) || At(Run(env, Initial(inbox), steps), m, DEAD)
    ensures Run(env, Initial(inbox), steps).ledger.pending == map[]
  {
    hide Run;
    hide Possible;
    hide LedgerOk;
    hide MessagesOk;
    hide HandlersOk;
    hide OwnersOk;
    RunOk(env, inbox, steps);
    RunMessages(env, inbox, steps);
    var w := Run(env, Initial(inbox), steps);
    assert !Enabled(env, w, Receive(m)) && !Enabled(env, w, Redrive(m)) && !Enabled(env, w, Expire(m));
    if w.ledger.pending != map[] {
      var k :| k in w.ledger.pending;
      OwnerCanFail(env, w, k);
    }
  }

  // ---------- no deadlock ----------

  /** A step of handler `h` other than failing. */
  ghost predicate CanProceed(env: Env, w: State, h: nat) {
    exists s :: Enabled(env, w, s) && !s.Receive? && !s.Redrive? && !s.Expire? && !s.Fail? && !s.Override? && s.h == h
  }

  /** The object is not there to be fetched. */
  predicate LacksObject(env: Env, w: State, h: nat) {
    Current(w, h) && w.handlers[h].phase.Fetching? && Key(w, h) !in env.objects
  }

  /** Another transaction has inserted the same source key and is not finished. */
  predicate Waits(w: State, h: nat) {
    h < |w.handlers| && w.handlers[h].phase.Inserting? && w.handlers[h].phase.draft.report.sourceKey in w.ledger.pending
  }

  lemma HandlerProceeds(env: Env, w: State, h: nat)
    requires HandlerOk(env, w, h) && !w.handlers[h].phase.Stopped? && !LacksObject(env, w, h) && !Waits(w, h)
    ensures CanProceed(env, w, h)
  {
    hide FromObject;
    hide AllStored;
    hide IsHigh;
    match w.handlers[h].phase
    case Fetching => assert Enabled(env, w, Fetch(h, Classification(Labels(OTHER, LOW, false), "", 0.0)));
    case Inserting(_) => assert Enabled(env, w, Insert(h));
    case Notifying(_) => assert Enabled(env, w, Notify(h));
    case Committing(_, _) => assert Enabled(env, w, Commit(h, true));
    case Deleting => assert Enabled(env, w, Delete(h, true));
  }

  /**
    A handler that is not done can go on, or its object is missing, or it waits for a handler that
    can go on itself: nobody waits for somebody who waits.
   */
  lemma NobodyIsStuck(env: Env, inbox: seq<seq<string>>, steps: seq<Step>, h: nat)
    requires Possible(env, Initial(inbox), steps) && h < |Run(env, Initial(inbox), steps).handlers|
    requires !Run(env, Initial(inbox), steps).handlers[h].phase.Stopped?
    ensures var w := Run(env, Initial(inbox), steps);
            || CanProceed(env, w, h) || LacksObject(env, w, h)
            || (Waits(w, h) && CanProceed(env, w, w.ledger.pending[w.handlers[h].phase.draft.report.sourceKey].owner))
  {
    hide Run;
    hide Possible;
    hide LedgerOk;
    hide MessagesOk;
    hide HandlerOk;
    hide CanProceed;
    RunOk(env, inbox, steps);
    var w := Run(env, Initial(inbox), steps);
    assert HandlerOk(env, w, h);
    if Waits(w, h) {
      HolderProceeds(env, w, w.handlers[h].phase.draft.report.sourceKey);
    } else if !LacksObject(env, w, h) {
      HandlerProceeds(env, w, h);
    }
  }

  lemma HolderProceeds(env: Env, w: State, k: string)
    requires OwnersOk(w) && HandlersOk(env, w) && k in w.ledger.pending
    ensures CanProceed(env, w, w.ledger.pending[k].owner)
  {
    hide FromObject;
    hide AllStored;
    var h := w.ledger.pending[k].owner;
    assert Holds(w, h, k);
    assert HandlerOk(env, w, h);
    if w.handlers[h].phase.Notifying? {
      assert Enabled(env, w, Notify(h));
    } else {
      assert Enabled(env, w, Commit(h, true));
    }
  }
}
