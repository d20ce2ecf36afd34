/** What every step of the worker keeps. */
module PipelineSafety {
  import opened Domain
  import opened Tables
  import opened Pipeline
  import opened LedgerLaws

  /** Handler `h` has the open transaction for `k`, and knows how far it is. */
  ghost predicate Holds(w: State, h: nat, k: string) {
    && k in w.ledger.pending && w.ledger.pending[k].owner == h && h < |w.handlers|
    && match w.handlers[h].phase
       case Notifying(key) => key == k && IsHigh(w.ledger.pending[k].draft) && !w.ledger.pending[k].notified
       case Committing(key, inserted) =>
         key == k && inserted && (IsHigh(w.ledger.pending[k].draft) <==> w.ledger.pending[k].notified)
       case _ => false
  }

  /** The object behind an S3 key has its report committed. */
  ghost predicate Stored(env: Env, l: Ledger, o: string) {
    o in env.objects && env.objects[o].sourceKey in l.history
  }

  /** The source key that handler `h` is working on is `k`. */
  ghost predicate WorksOn(env: Env, w: State, h: nat, k: string) {
    Current(w, h) && Key(w, h) in env.objects && k == env.objects[Key(w, h)].sourceKey
  }

  ghost predicate PhaseOk(env: Env, w: State, h: nat)
    requires Active(w, h)
  {
    match w.handlers[h].phase
    case Fetching => Current(w, h)
    case Inserting(draft) => WorksOn(env, w, h, draft.report.sourceKey) && FromObject(env, draft)
    case Notifying(k) => WorksOn(env, w, h, k) && Holds(w, h, k)
    case Committing(k, inserted) =>
      WorksOn(env, w, h, k) && if inserted then Holds(w, h, k) else k in w.ledger.history
    case Deleting => w.handlers[h].done == |Keys(w, h)|
    case Stopped => true
  }

  ghost predicate AllStored(env: Env, l: Ledger, keys: seq<string>) {
    forall i :: 0 <= i < |keys| ==> Stored(env, l, keys[i])
  }

  ghost predicate HandlerOk(env: Env, w: State, h: nat) {
    && Active(w, h) && PhaseOk(env, w, h)
    && w.handlers[h].done <= |Keys(w, h)|
    && AllStored(env, w.ledger, Keys(w, h)[..w.handlers[h].done])
  }

  ghost predicate HandlersOk(env: Env, w: State) {
    forall h :: 0 <= h < |w.handlers| ==> HandlerOk(env, w, h)
  }

  ghost predicate OwnersOk(w: State) {
    forall k :: k in w.ledger.pending ==> Holds(w, w.ledger.pending[k].owner, k)
  }

  ghost predicate MessageOk(env: Env, l: Ledger, message: Message) {
    && message.received <= MAX_RECEIVES
    && (message.place == IN_FLIGHT ==> message.received > 0)
    && (message.place == DEAD ==> message.received == MAX_RECEIVES)
    && (message.place == DELETED ==> AllStored(env, l, message.keys))
  }

  ghost predicate MessagesOk(env: Env, w: State) {
    forall m :: 0 <= m < |w.messages| ==> MessageOk(env, w.ledger, w.messages[m])
  }

  ghost predicate Inv(env: Env, w: State) {
    LedgerOk(env, w.ledger) && HandlersOk(env, w) && OwnersOk(w) && MessagesOk(env, w)
  }

  // ---------- frames ----------

  ghost predicate Grows(l: Ledger, m: Ledger) {
    l.history.Keys <= m.history.Keys
  }

  ghost predicate SameKeys(w: State, v: State) {
    |v.messages| == |w.messages| && forall m :: 0 <= m < |w.messages| ==> v.messages[m].keys == w.messages[m].keys
  }

  /** Only handler `h` moved, and only its transaction. */
  ghost predicate Moves(w: State, v: State, h: nat) {
    && SameKeys(w, v) && Grows(w.ledger, v.ledger) && |v.handlers| == |w.handlers|
    && (forall g :: 0 <= g < |w.handlers| && g != h ==> v.handlers[g] == w.handlers[g])
    && (forall k :: k in w.ledger.pending && w.ledger.pending[k].owner != h ==>
          k in v.ledger.pending && v.ledger.pending[k] == w.ledger.pending[k])
    && (forall k :: k in v.ledger.pending && v.ledger.pending[k].owner != h ==>
          k in w.ledger.pending && v.ledger.pending[k] == w.ledger.pending[k])
  }

  lemma StoredGrows(env: Env, l: Ledger, m: Ledger, keys: seq<string>)
    requires Grows(l, m) && AllStored(env, l, keys)
    ensures AllStored(env, m, keys)
  {
    forall i | 0 <= i < |keys| ensures Stored(env, m, keys[i]) {
      assert Stored(env, l, keys[i]);
    }
  }

  lemma OtherHandler(env: Env, w: State, v: State, h: nat, g: nat)
    requires Moves(w, v, h) && g < |w.handlers| && g != h && HandlerOk(env, w, g)
    ensures HandlerOk(env, v, g)
  {
    hide FromObject;
    hide AllStored;
    assert Keys(v, g) == Keys(w, g);
    StoredGrows(env, w.ledger, v.ledger, Keys(w, g)[..w.handlers[g].done]);
  }

  lemma HandlersMove(env: Env, w: State, v: State, h: nat)
    requires HandlersOk(env, w) && Moves(w, v, h) && (h < |w.handlers| ==> HandlerOk(env, v, h))
    ensures HandlersOk(env, v)
  {
    hide HandlerOk;
    hide Moves;
    assert |v.handlers| == |w.handlers| by { MovesLength(w, v, h); }
    forall g | 0 <= g < |v.handlers| ensures HandlerOk(env, v, g) {
      if g != h {
        assert HandlerOk(env, w, g);
        OtherHandler(env, w, v, h, g);
      }
    }
  }

  lemma MovesLength(w: State, v: State, h: nat)
    requires Moves(w, v, h)
    ensures |v.handlers| == |w.handlers|
  {
  }

  lemma OwnersMove(w: State, v: State, h: nat)
    requires OwnersOk(w) && Moves(w, v, h)
    requires forall k :: k in v.ledger.pending && v.ledger.pending[k].owner == h ==> Holds(v, h, k)
    ensures OwnersOk(v)
  {
    forall k | k in v.ledger.pending ensures Holds(v, v.ledger.pending[k].owner, k) {
      if v.ledger.pending[k].owner != h {
        assert Holds(w, w.ledger.pending[k].owner, k);
      }
    }
  }

  lemma MessagesGrow(env: Env, w: State, v: State)
    requires MessagesOk(env, w) && v.messages == w.messages && Grows(w.ledger, v.ledger)
    ensures MessagesOk(env, v)
  {
    hide AllStored;
    forall m | 0 <= m < |v.messages| ensures MessageOk(env, v.ledger, v.messages[m]) {
      assert MessageOk(env, w.ledger, w.messages[m]);
      if v.messages[m].place == DELETED {
        StoredGrows(env, w.ledger, v.ledger, v.messages[m].keys);
      }
    }
  }

  /** What a step has to show when it only moves handler `h`. */
  lemma HandlerMoved(env: Env, w: State, v: State, h: nat)
    requires Inv(env, w) && LedgerOk(env, v.ledger) && Moves(w, v, h) && v.messages == w.messages
    requires h < |w.handlers| && HandlerOk(env, v, h)
    requires forall k :: k in v.ledger.pending && v.ledger.pending[k].owner == h ==> Holds(v, h, k)
    ensures Inv(env, v)
  {
    hide LedgerOk;
    hide HandlersOk;
    hide OwnersOk;
    hide MessagesOk;
    hide HandlerOk;
    hide Holds;
    HandlersMove(env, w, v, h);
    OwnersMove(w, v, h);
    MessagesGrow(env, w, v);
  }

  /** The same, for a handler still at the same key. */
  lemma PhaseMoved(env: Env, w: State, v: State, h: nat)
    requires Inv(env, w) && LedgerOk(env, v.ledger) && Moves(w, v, h) && v.messages == w.messages
    requires h < |w.handlers| && v.handlers[h] == w.handlers[h].(phase := v.handlers[h].phase)
    requires Active(v, h) && PhaseOk(env, v, h)
    requires forall k :: k in v.ledger.pending && v.ledger.pending[k].owner == h ==> Holds(v, h, k)
    ensures Inv(env, v)
  {
    assert HandlerOk(env, w, h);
    StoredGrows(env, w.ledger, v.ledger, Keys(w, h)[..w.handlers[h].done]);
    assert Keys(v, h) == Keys(w, h);
    hide LedgerOk;
    hide AllStored;
    hide PhaseOk;
    hide Moves;
    hide Holds;
    HandlerMoved(env, w, v, h);
  }

  // ---------- the steps of a handler ----------

  lemma FetchKeeps(env: Env, w: State, h: nat, c: Classification)
    requires Inv(env, w) && Enabled(env, w, Fetch(h, c))
    ensures Inv(env, Next(env, w, Fetch(h, c)))
  {
    hide LedgerOk;
    hide FromObject;
    hide AllStored;
    hide DraftFor;
    var draft := DraftFor(env, env.objects[Key(w, h)], c);
    var v := SetPhase(w, h, Inserting(draft));
    DraftIsFromObject(env, Key(w, h), c);
    assert HandlerOk(env, w, h);
    NothingHeld(w, h);
    PhaseMoved(env, w, v, h);
  }

  lemma DraftIsFromObject(env: Env, o: string, c: Classification)
    requires o in env.objects && InRange(c)
    ensures FromObject(env, DraftFor(env, env.objects[o], c))
    ensures DraftFor(env, env.objects[o], c).report.sourceKey == env.objects[o].sourceKey
  {
  }

  lemma NothingHeld(w: State, h: nat)
    requires OwnersOk(w) && h < |w.handlers|
    requires var p := w.handlers[h].phase; !p.Notifying? && (p.Committing? ==> !p.inserted)
    ensures forall k :: k in w.ledger.pending ==> w.ledger.pending[k].owner != h
  {
    forall k | k in w.ledger.pending ensures w.ledger.pending[k].owner != h {
      assert Holds(w, w.ledger.pending[k].owner, k);
    }
  }

  lemma InsertLedger(env: Env, w: State, h: nat)
    requires LedgerOk(env, w.ledger) && HandlerOk(env, w, h) && Enabled(env, w, Insert(h))
    ensures LedgerOk(env, InsertRow(w, h).ledger)
    ensures var key := w.handlers[h].phase.draft.report.sourceKey;
            HasKey(w.ledger.facts, key) <==> key in w.ledger.history
  {
    hide FromObject;
    hide AllStored;
    hide IsHigh;
    var draft := w.handlers[h].phase.draft;
    KeyIsHistory(w.ledger, draft.report.sourceKey);
    if HasKey(w.ledger.facts, draft.report.sourceKey) {
      BumpKeeps(env, w.ledger);
    } else {
      OpenKeeps(env, w.ledger, draft.report.sourceKey, h, draft);
    }
  }

  lemma InsertKeeps(env: Env, w: State, h: nat)
    requires Inv(env, w) && Enabled(env, w, Insert(h))
    ensures Inv(env, Next(env, w, Insert(h)))
  {
    hide LedgerOk;
    hide FromObject;
    hide AllStored;
    hide IsHigh;
    hide HasKey;
    hide MessagesOk;
    assert HandlerOk(env, w, h);
    hide HandlersOk;
    InsertLedger(env, w, h);
    NothingHeld(w, h);
    PhaseMoved(env, w, InsertRow(w, h), h);
  }

  lemma NotifyKeeps(env: Env, w: State, h: nat)
    requires Inv(env, w) && Enabled(env, w, Notify(h))
    ensures Inv(env, Next(env, w, Notify(h)))
  {
    hide LedgerOk;
    hide FromObject;
    hide AllStored;
    hide IsHigh;
    var key := w.handlers[h].phase.key;
    var v := SendNotification(w, h);
    assert HandlerOk(env, w, h);
    MarkKeeps(env, w.ledger, key);
    forall k | k in v.ledger.pending && v.ledger.pending[k].owner == h ensures Holds(v, h, k) {
      assert Holds(w, h, k);
    }
    PhaseMoved(env, w, v, h);
  }

  lemma CommitLedger(env: Env, w: State, h: nat)
    requires Inv(env, w) && Enabled(env, w, Commit(h, true))
    ensures var phase := w.handlers[h].phase;
            var l := if phase.inserted then Publish(w.ledger, phase.key) else w.ledger;
            && LedgerOk(env, l) && Grows(w.ledger, l) && phase.key in l.history
            && WorksOn(env, w, h, phase.key)
  {
    hide LedgerOk;
    hide FromObject;
    hide AllStored;
    hide IsHigh;
    assert HandlerOk(env, w, h);
    var key := w.handlers[h].phase.key;
    if w.handlers[h].phase.inserted {
      PublishKeeps(env, w.ledger, key);
    }
  }

  /** After a commit the handler holds nothing, and everything else is where it was. */
  lemma CommitMoves(env: Env, w: State, h: nat, acknowledged: bool)
    requires Inv(env, w) && Enabled(env, w, Commit(h, acknowledged))
    requires Grows(w.ledger, CommitKey(w, h, acknowledged).ledger)
    ensures var v := CommitKey(w, h, acknowledged);
            && Moves(w, v, h)
            && forall k :: k in v.ledger.pending ==> v.ledger.pending[k].owner != h
  {
    hide LedgerOk;
    hide FromObject;
    hide AllStored;
    hide IsHigh;
    hide MessagesOk;
    assert HandlerOk(env, w, h);
    hide HandlersOk;
    var v := CommitKey(w, h, acknowledged);
    if w.handlers[h].phase.inserted {
      forall k | k in v.ledger.pending ensures v.ledger.pending[k].owner != h {
        assert Holds(w, w.ledger.pending[k].owner, k);
      }
    } else {
      NothingHeld(w, h);
    }
  }

  lemma OneMoreStored(env: Env, l: Ledger, keys: seq<string>, done: nat)
    requires done < |keys| && AllStored(env, l, keys[..done]) && Stored(env, l, keys[done])
    ensures AllStored(env, l, keys[..done + 1])
  {
    var all := keys[..done + 1];
    forall i | 0 <= i < |all| ensures Stored(env, l, all[i]) {
      assert i < done ==> Stored(env, l, keys[..done][i]);
    }
  }

  lemma CommitHandler(env: Env, w: State, h: nat, acknowledged: bool)
    requires HandlerOk(env, w, h) && Enabled(env, w, Commit(h, acknowledged))
    requires WorksOn(env, w, h, w.handlers[h].phase.key)
    requires var l := CommitKey(w, h, acknowledged).ledger;
             Grows(w.ledger, l) && w.handlers[h].phase.key in l.history
    ensures HandlerOk(env, CommitKey(w, h, acknowledged), h)
  {
    hide Publish;
    hide AllStored;
    hide Holds;
    var v := CommitKey(w, h, acknowledged);
    var done := w.handlers[h].done;
    assert Keys(v, h) == Keys(w, h);
    StoredGrows(env, w.ledger, v.ledger, Keys(w, h)[..done]);
    OneMoreStored(env, v.ledger, Keys(w, h), done);
  }

  lemma CommitKeeps(env: Env, w: State, h: nat, acknowledged: bool)
    requires Inv(env, w) && Enabled(env, w, Commit(h, acknowledged))
    ensures Inv(env, Next(env, w, Commit(h, acknowledged)))
  {
    CommitLedger(env, w, h);
    assert HandlerOk(env, w, h);
    hide LedgerOk;
    hide HandlersOk;
    hide OwnersOk;
    hide MessagesOk;
    hide HandlerOk;
    hide Publish;
    hide WorksOn;
    hide Moves;
    CommitMoves(env, w, h, acknowledged);
    CommitHandler(env, w, h, acknowledged);
    HandlerMoved(env, w, CommitKey(w, h, acknowledged), h);
  }

  lemma FailKeeps(env: Env, w: State, h: nat, delivered: bool)
    requires Inv(env, w) && Enabled(env, w, Fail(h, delivered))
    ensures Inv(env, Next(env, w, Fail(h, delivered)))
  {
    hide LedgerOk;
    hide FromObject;
    hide AllStored;
    hide IsHigh;
    hide MessagesOk;
    assert HandlerOk(env, w, h);
    hide HandlersOk;
    var v := Failed(w, h, delivered);
    var phase := w.handlers[h].phase;
    if phase.Notifying? || (phase.Committing? && phase.inserted) {
      DropKeeps(env, w.ledger, phase.key, delivered);
      forall k | k in v.ledger.pending ensures v.ledger.pending[k].owner != h {
        assert Holds(w, w.ledger.pending[k].owner, k);
      }
    } else {
      NothingHeld(w, h);
    }
    PhaseMoved(env, w, v, h);
  }

  // ---------- the steps of a message ----------

  /** A message changes place; every handler and the ledger stay. */
  lemma PlaceMoved(env: Env, w: State, m: nat, place: Place)
    requires Inv(env, w) && m < |w.messages| && MessageOk(env, w.ledger, w.messages[m].(place := place))
    ensures Inv(env, SetPlace(w, m, place))
  {
    hide LedgerOk;
    hide HandlerOk;
    hide Holds;
    var v := SetPlace(w, m, place);
    forall h | 0 <= h < |v.handlers| ensures HandlerOk(env, v, h) {
      assert HandlerOk(env, w, h);
      HandlerElsewhere(env, w, v, h);
    }
    forall k | k in v.ledger.pending ensures Holds(v, v.ledger.pending[k].owner, k) {
      assert Holds(w, w.ledger.pending[k].owner, k);
      OwnerExists(w, k);
      HoldsElsewhere(w, v, v.ledger.pending[k].owner, k);
    }
  }

  lemma HandlerElsewhere(env: Env, w: State, v: State, h: nat)
    requires HandlerOk(env, w, h) && v.ledger == w.ledger && h < |v.handlers| && v.handlers[h] == w.handlers[h]
    requires |v.handlers| >= |w.handlers| && SameKeys(w, v)
    ensures HandlerOk(env, v, h)
  {
    hide FromObject;
    hide AllStored;
    assert Keys(v, h) == Keys(w, h);
  }

  lemma HoldsElsewhere(w: State, v: State, h: nat, k: string)
    requires Holds(w, h, k) && v.ledger == w.ledger && h < |v.handlers| && v.handlers[h] == w.handlers[h]
    ensures Holds(v, h, k)
  {
  }

  lemma ReceiveKeeps(env: Env, w: State, m: nat)
    requires Inv(env, w) && Enabled(env, w, Receive(m))
    ensures Inv(env, Next(env, w, Receive(m)))
  {
    hide LedgerOk;
    hide Holds;
    var v := Received(w, m);
    assert MessageOk(env, w.ledger, w.messages[m]);
    forall h | 0 <= h < |v.handlers| ensures HandlerOk(env, v, h) {
      if h < |w.handlers| {
        assert HandlerOk(env, w, h);
        HandlerElsewhere(env, w, v, h);
      }
    }
    forall k | k in v.ledger.pending ensures Holds(v, v.ledger.pending[k].owner, k) {
      assert Holds(w, w.ledger.pending[k].owner, k);
      OwnerExists(w, k);
      HoldsElsewhere(w, v, v.ledger.pending[k].owner, k);
    }
  }

  lemma OwnerExists(w: State, k: string)
    requires k in w.ledger.pending && Holds(w, w.ledger.pending[k].owner, k)
    ensures w.ledger.pending[k].owner < |w.handlers|
  {
  }

  lemma RedriveKeeps(env: Env, w: State, m: nat)
    requires Inv(env, w) && Enabled(env, w, Redrive(m))
    ensures Inv(env, Next(env, w, Redrive(m)))
  {
    assert MessageOk(env, w.ledger, w.messages[m]);
    PlaceMoved(env, w, m, DEAD);
  }

  lemma ExpireKeeps(env: Env, w: State, m: nat)
    requires Inv(env, w) && Enabled(env, w, Expire(m))
    ensures Inv(env, Next(env, w, Expire(m)))
  {
    assert MessageOk(env, w.ledger, w.messages[m]);
    PlaceMoved(env, w, m, QUEUED);
  }

  /** A handler that got through all keys may delete its message. */
  lemma DeleteKeeps(env: Env, w: State, h: nat, effective: bool)
    requires Inv(env, w) && Enabled(env, w, Delete(h, effective))
    ensures Inv(env, Next(env, w, Delete(h, effective)))
  {
    hide LedgerOk;
    hide AllStored;
    assert HandlerOk(env, w, h);
    var m := w.handlers[h].message;
    var keys := w.messages[m].keys;
    assert keys[..|keys|] == keys;
    assert MessageOk(env, w.ledger, w.messages[m]);
    var x := if effective && (At(w, m, QUEUED) || At(w, m, IN_FLIGHT)) then SetPlace(w, m, DELETED) else w;
    PlaceMoved(env, w, m, x.messages[m].place);
    hide HandlerOk;
    hide MessagesOk;
    hide HandlersOk;
    hide OwnersOk;
    DeletingStops(env, x, h);
  }

  lemma DeletingStops(env: Env, w: State, h: nat)
    requires Inv(env, w) && Enabled(env, w, Delete(h, false))
    ensures Inv(env, SetPhase(w, h, Stopped))
  {
    hide LedgerOk;
    hide HandlersOk;
    hide MessagesOk;
    NothingHeld(w, h);
    PhaseMoved(env, w, SetPhase(w, h, Stopped), h);
  }

  // ---------- overrides ----------

  lemma OverrideKeeps(env: Env, w: State, report: nat, labels: Labels)
    requires Inv(env, w) && Enabled(env, w, Override(report, labels))
    ensures Inv(env, Next(env, w, Override(report, labels)))
  {
    hide LedgerOk;
    hide HandlersOk;
    hide OwnersOk;
    hide MessagesOk;
    RelabelKeeps(env, w.ledger, report, labels);
    var v := w.(ledger := Relabel(w.ledger, report, labels));
    HandlersMove(env, w, v, |w.handlers|);
    OwnersStay(w, v);
    MessagesGrow(env, w, v);
  }

  lemma OwnersStay(w: State, v: State)
    requires OwnersOk(w) && v.handlers == w.handlers && v.ledger.pending == w.ledger.pending
    ensures OwnersOk(v)
  {
    forall k | k in v.ledger.pending ensures Holds(v, v.ledger.pending[k].owner, k) {
      assert Holds(w, w.ledger.pending[k].owner, k);
    }
  }
}
