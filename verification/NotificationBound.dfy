/** How often a source key can be notified at all. */
module NotificationBound {
  import opened Tables
  import opened Pipeline
  import opened LedgerLaws
  import opened PipelineSafety
  import opened PipelineProgress
  import PipelineRuns

  // ---------- chances to notify ----------

  /** Does this S3 key lead to the source key? */
  predicate Leads(env: Env, o: string, k: string) {
    o in env.objects && env.objects[o].sourceKey == k
  }

  /** The places from `i` on that lead to the source key. */
  function Places(env: Env, keys: seq<string>, i: nat, k: string): nat
    decreases |keys| - i
  {
    if i >= |keys| then 0 else (if Leads(env, keys[i], k) then 1 else 0) + Places(env, keys, i + 1, k)
  }

  /** Notifications a handler can still send: none for a key it has notified, or will not get to. */
  function HandlerChances(env: Env, w: State, h: nat, k: string): nat
    requires h < |w.handlers|
  {
    if !Active(w, h) then 0
    else
      var keys, done := Keys(w, h), w.handlers[h].done;
      match w.handlers[h].phase
      case Stopped => 0
      case Deleting => 0
      case Committing(_, _) => Places(env, keys, done + 1, k)
      case _ => Places(env, keys, done, k)
  }

  /** Those of the deliveries to come. */
  function MessageChances(env: Env, message: Message, k: string): nat {
    if message.received >= MAX_RECEIVES then 0
    else (MAX_RECEIVES - message.received) * Places(env, message.keys, 0, k)
  }

  function AllHandlers(env: Env, w: State, k: string): seq<nat> {
    seq(|w.handlers|, h requires 0 <= h < |w.handlers| => HandlerChances(env, w, h, k))
  }

  function AllMessages(env: Env, w: State, k: string): seq<nat> {
    seq(|w.messages|, m requires 0 <= m < |w.messages| => MessageChances(env, w.messages[m], k))
  }

  /** Sent so far, and still to be sent at most. */
  function Reach(env: Env, w: State, k: string): nat {
    w.ledger.sent[k] + Total(AllHandlers(env, w, k)) + Total(AllMessages(env, w, k))
  }

  // ---------- no step adds to it ----------

  lemma HandlerChanged(env: Env, w: State, v: State, h: nat, k: string)
    requires h < |w.handlers| && |v.handlers| == |w.handlers| && SameKeys(w, v)
    requires forall g :: 0 <= g < |w.handlers| && g != h ==> v.handlers[g] == w.handlers[g]
    ensures Total(AllHandlers(env, v, k)) + HandlerChances(env, w, h, k)
         == Total(AllHandlers(env, w, k)) + HandlerChances(env, v, h, k)
  {
    hide Places;
    hide Total;
    var a, b := AllHandlers(env, w, k), AllHandlers(env, v, k);
    forall g | 0 <= g < |a| && g != h ensures b[g] == a[g] {
      assert Active(w, g) ==> Keys(v, g) == Keys(w, g);
    }
    assert b == a[h := HandlerChances(env, v, h, k)];
    TotalUpdate(a, h, HandlerChances(env, v, h, k));
  }

  lemma MessagesSame(env: Env, w: State, v: State, k: string)
    requires |v.messages| == |w.messages|
    requires forall m :: 0 <= m < |w.messages| ==>
               v.messages[m].keys == w.messages[m].keys && v.messages[m].received == w.messages[m].received
    ensures AllMessages(env, v, k) == AllMessages(env, w, k)
  {
    hide Places;
    forall m | 0 <= m < |w.messages|
      ensures MessageChances(env, v.messages[m], k) == MessageChances(env, w.messages[m], k)
    {
    }
  }

  lemma HandlersSame(env: Env, w: State, v: State, k: string)
    requires v.handlers == w.handlers && SameKeys(w, v)
    ensures AllHandlers(env, v, k) == AllHandlers(env, w, k)
  {
    hide Places;
    forall h | 0 <= h < |w.handlers| ensures HandlerChances(env, v, h, k) == HandlerChances(env, w, h, k) {
      assert Active(w, h) ==> Keys(v, h) == Keys(w, h);
    }
  }

  lemma ReceiveReach(env: Env, w: State, m: nat, k: string)
    requires Enabled(env, w, Receive(m))
    ensures Reach(env, Received(w, m), k) == Reach(env, w, k)
  {
    hide Places;
    hide Total;
    var v := Received(w, m);
    var x := w.(messages := v.messages);
    var message := w.messages[m];
    assert AllMessages(env, v, k) == AllMessages(env, w, k)[m := MessageChances(env, v.messages[m], k)];
    TotalUpdate(AllMessages(env, w, k), m, MessageChances(env, v.messages[m], k));
    HandlersSame(env, w, x, k);
    var added := HandlerChances(env, v, |w.handlers|, k);
    NewHandler(env, w, m, k);
    assert AllHandlers(env, v, k) == AllHandlers(env, x, k) + [added] by {
      forall h | 0 <= h < |w.handlers| ensures HandlerChances(env, v, h, k) == HandlerChances(env, x, h, k) {
        assert Active(x, h) ==> Keys(v, h) == Keys(x, h);
      }
    }
    TotalAppend(AllHandlers(env, x, k), added);
    OneDelivery(env, message, k);
  }

  lemma NewHandler(env: Env, w: State, m: nat, k: string)
    requires m < |w.messages|
    ensures HandlerChances(env, Received(w, m), |w.handlers|, k) == Places(env, w.messages[m].keys, 0, k)
  {
  }

  lemma OneDelivery(env: Env, message: Message, k: string)
    requires message.received < MAX_RECEIVES
    ensures MessageChances(env, message.(place := IN_FLIGHT, received := message.received + 1), k)
            + Places(env, message.keys, 0, k) == MessageChances(env, message, k)
  {
    hide Places;
    var r, p := MAX_RECEIVES - message.received, Places(env, message.keys, 0, k);
    assert r * p == (r - 1) * p + p;
  }

  lemma PlaceReach(env: Env, w: State, s: Step, k: string)
    requires Enabled(env, w, s) && (s.Redrive? || s.Expire?)
    ensures Reach(env, Next(env, w, s), k) == Reach(env, w, k)
  {
    var v := Next(env, w, s);
    hide Places;
    hide Total;
    MessagesSame(env, w, v, k);
    HandlersSame(env, w, v, k);
  }

  lemma PlacesStep(env: Env, keys: seq<string>, i: nat, k: string)
    requires i < |keys|
    ensures Places(env, keys, i, k) == (if Leads(env, keys[i], k) then 1 else 0) + Places(env, keys, i + 1, k)
  {
  }

  /** What a handler's phase says about its chances. */
  lemma ChancesAt(env: Env, w: State, h: nat, k: string)
    requires HandlerOk(env, w, h)
    ensures w.handlers[h].phase.Committing? ==>
              HandlerChances(env, w, h, k) == Places(env, Keys(w, h), w.handlers[h].done + 1, k)
    ensures w.handlers[h].phase.Fetching? || w.handlers[h].phase.Inserting? || w.handlers[h].phase.Notifying? ==>
              && w.handlers[h].done < |Keys(w, h)|
              && HandlerChances(env, w, h, k) == (if Leads(env, Keys(w, h)[w.handlers[h].done], k) then 1 else 0)
                                                 + Places(env, Keys(w, h), w.handlers[h].done + 1, k)
    ensures w.handlers[h].phase.Notifying? ==>
              (Leads(env, Keys(w, h)[w.handlers[h].done], k) <==> k == w.handlers[h].phase.key)
  {
    hide FromObject;
    hide AllStored;
    hide Holds;
    hide Places;
    if Current(w, h) {
      PlacesStep(env, Keys(w, h), w.handlers[h].done, k);
    }
  }

  lemma QuietSteps(env: Env, w: State, s: Step, k: string)
    requires s.Fetch? || s.Insert? || s.Commit? || s.Delete? || (s.Fail? && !s.delivered)
    requires HandlerOk(env, w, s.h) && Enabled(env, w, s)
    ensures var v := Next(env, w, s);
            && |v.handlers| == |w.handlers| && v.ledger.sent[k] == w.ledger.sent[k]
            && HandlerChances(env, v, s.h, k) <= HandlerChances(env, w, s.h, k)
  {
    hide HandlerOk;
    hide HandlerChances;
    hide Enabled;
    hide Next;
    QuietSent(env, w, s, k);
    if s.Fetch? || s.Insert? {
      OpeningChances(env, w, s, k);
    } else {
      ClosingChances(env, w, s, k);
    }
  }

  lemma OpeningChances(env: Env, w: State, s: Step, k: string)
    requires s.Fetch? || s.Insert?
    requires HandlerOk(env, w, s.h) && Enabled(env, w, s)
    ensures var v := Next(env, w, s);
            && |v.handlers| == |w.handlers|
            && HandlerChances(env, v, s.h, k) <= HandlerChances(env, w, s.h, k)
  {
    hide HandlerOk;
    hide Places;
    hide DraftFor;
    hide HasKey;
    hide IsHigh;
    hide Open;
    ChancesAt(env, w, s.h, k);
  }

  lemma ClosingChances(env: Env, w: State, s: Step, k: string)
    requires s.Commit? || s.Delete? || (s.Fail? && !s.delivered)
    requires HandlerOk(env, w, s.h) && Enabled(env, w, s)
    ensures var v := Next(env, w, s);
            && |v.handlers| == |w.handlers|
            && HandlerChances(env, v, s.h, k) <= HandlerChances(env, w, s.h, k)
  {
    hide HandlerOk;
    hide Places;
    hide Publish;
    hide Drop;
    ChancesAt(env, w, s.h, k);
  }

  lemma QuietSent(env: Env, w: State, s: Step, k: string)
    requires s.Fetch? || s.Insert? || s.Commit? || s.Delete? || (s.Fail? && !s.delivered)
    requires Enabled(env, w, s)
    ensures Next(env, w, s).ledger.sent[k] == w.ledger.sent[k]
  {
    hide HasKey;
    hide IsHigh;
    hide DraftFor;
    hide Inserted;
  }

  lemma LoudSteps(env: Env, w: State, s: Step, k: string)
    requires s.Notify? || (s.Fail? && s.delivered)
    requires HandlerOk(env, w, s.h) && Enabled(env, w, s)
    ensures var v := Next(env, w, s);
            && |v.handlers| == |w.handlers|
            && v.ledger.sent[k] + HandlerChances(env, v, s.h, k) <= w.ledger.sent[k] + HandlerChances(env, w, s.h, k)
  {
    hide HandlerOk;
    hide Places;
    ChancesAt(env, w, s.h, k);
  }

  lemma HandlerIsOk(env: Env, w: State, h: nat)
    requires HandlersOk(env, w) && h < |w.handlers|
    ensures HandlerOk(env, w, h)
  {
  }

  /** What a handler sends comes off its chances. */
  lemma HandlerReach(env: Env, w: State, s: Step, k: string)
    requires Inv(env, w) && Enabled(env, w, s)
    requires s.Fetch? || s.Insert? || s.Notify? || s.Commit? || s.Fail? || s.Delete?
    ensures Reach(env, Next(env, w, s), k) <= Reach(env, w, k)
  {
    hide LedgerOk;
    hide HandlersOk;
    hide OwnersOk;
    hide MessagesOk;
    hide HandlerChances;
    hide Total;
    hide DraftFor;
    hide HasKey;
    hide Inserted;
    var v := Next(env, w, s);
    assert HandlerOk(env, w, s.h) by { HandlerIsOk(env, w, s.h); }
    if s.Notify? || (s.Fail? && s.delivered) {
      LoudSteps(env, w, s, k);
    } else {
      QuietSteps(env, w, s, k);
    }
    hide HandlerOk;
    MessagesSame(env, w, v, k);
    HandlerChanged(env, w, v, s.h, k);
  }

  lemma StepReach(env: Env, w: State, s: Step, k: string)
    requires Inv(env, w) && Enabled(env, w, s)
    ensures Reach(env, Next(env, w, s), k) <= Reach(env, w, k)
  {
    hide Inv;
    match s {
      case Receive(m) => ReceiveReach(env, w, m, k);
      case Redrive(_) => PlaceReach(env, w, s, k);
      case Expire(_) => PlaceReach(env, w, s, k);
      case Override(_, _) =>
        MessagesSame(env, w, Next(env, w, s), k);
        HandlersSame(env, w, Next(env, w, s), k);
      case _ => HandlerReach(env, w, s, k);
    }
  }

  lemma {:induction false} RunReach(env: Env, w: State, steps: seq<Step>, k: string)
    requires Inv(env, w) && Possible(env, w, steps)
    ensures Reach(env, Run(env, w, steps), k) <= Reach(env, w, k)
    decreases |steps|
  {
    hide Inv;
    hide Enabled;
    hide Next;
    hide Reach;
    if steps != [] {
      PipelineRuns.StepKeeps(env, w, steps[0]);
      StepReach(env, w, steps[0], k);
      RunReach(env, Next(env, w, steps[0]), steps[1..], k);
    }
  }

  // ---------- the bound ----------

  /** The places in the inbox that lead to the source key. */
  function InboxPlaces(env: Env, inbox: seq<seq<string>>, k: string): nat {
    if inbox == [] then 0 else Places(env, inbox[0], 0, k) + InboxPlaces(env, inbox[1..], k)
  }

  lemma {:induction false} InitialReach(env: Env, inbox: seq<seq<string>>, k: string)
    ensures Reach(env, Initial(inbox), k) == 3 * InboxPlaces(env, inbox, k)
  {
    hide Places;
    assert AllHandlers(env, Initial(inbox), k) == [];
    var all := AllMessages(env, Initial(inbox), k);
    if inbox == [] {
      assert all == [];
    } else {
      InitialReach(env, inbox[1..], k);
      var rest := AllMessages(env, Initial(inbox[1..]), k);
      assert AllHandlers(env, Initial(inbox[1..]), k) == [];
      assert all[0] == 3 * Places(env, inbox[0], 0, k);
      assert all[1..] == rest;
    }
  }

  /** In every run a source key is notified at most three times per place in the inbox that leads to it. */
  lemma NotifiedAtMostThrice(env: Env, inbox: seq<seq<string>>, steps: seq<Step>, k: string)
    requires Possible(env, Initial(inbox), steps)
    ensures Run(env, Initial(inbox), steps).ledger.sent[k] <= 3 * InboxPlaces(env, inbox, k)
  {
    hide Run;
    hide Possible;
    PipelineRuns.InitialOk(env, inbox);
    hide Inv;
    InitialReach(env, inbox, k);
    RunReach(env, Initial(inbox), steps, k);
  }
}
