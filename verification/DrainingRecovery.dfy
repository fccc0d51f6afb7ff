// Recovery while the per-run cap still holds contacts back.
module DrainingRecovery {
  import opened SyncModel
  import opened Recovery
  import opened AddressBook
  import opened CapDraining
  import opened Interruptions

  // One complete clean pass does to each contact all that a clean visit does, or nothing
  // because it is deferred.
  lemma CleanPassEither(cfg: Config, w: World, order: seq<string>, uid: string)
    requires Complete(w, CleanEnv(), order)
    ensures var c := Look(Reconciled(cfg, w, order, CleanEnv()).world, uid);
            c == CleanResult(cfg, w, uid) || (c == Look(w, uid) && uid in Waiting(w))
  {
    CleanPassFinishes(cfg, w, order);
    if uid !in order {
      Untouched(cfg, w, order, CleanEnv(), uid);
      assert uid !in Indexed(w, CleanEnv());
    } else {
      var full := PassPointwise(cfg, w, order, CleanEnv(), uid);
      CapOnlyDefers(cfg, Look(w, uid), CLEAN);
      LookWaiting(w, uid);
    }
  }

  // A clean visit can be repeated: it ends where it ended.
  lemma CleanTwice(cfg: Config, w: World, order: seq<string>, uid: string)
    requires AllResumable(cfg, w) && Complete(w, CleanEnv(), order)
    ensures var w' := Reconciled(cfg, w, order, CleanEnv()).world;
            Resumable(cfg, Look(w', uid)) && SameState(CleanResult(cfg, w', uid), CleanResult(cfg, w, uid))
  {
    assert Resumable(cfg, Look(w, uid));
    InterruptedVisitRecovers(cfg, Look(w, uid), false, CLEAN);
    SameStateRefl(CleanResult(cfg, w, uid));
    CleanPassEither(cfg, w, order, uid);
  }

  // Over any number of complete clean passes, capped or not, each contact is where one
  // clean visit takes it, or it still waits, untouched.
  lemma {:induction false} DrainedOrWaiting(cfg: Config, w: World, orders: seq<seq<string>>, uid: string)
    requires AllResumable(cfg, w) && AllComplete(cfg, w, orders) && orders != []
    ensures var c := Look(AfterPasses(cfg, w, orders), uid);
            SameState(c, CleanResult(cfg, w, uid)) || (c == Look(w, uid) && uid in Waiting(AfterPasses(cfg, w, orders)))
    decreases |orders|
  {
    var w' := Reconciled(cfg, w, orders[0], CleanEnv()).world;
    CleanPassEither(cfg, w, orders[0], uid);
    LookWaiting(w, uid);
    LookWaiting(w', uid);
    SameStateRefl(CleanResult(cfg, w, uid));
    if |orders| > 1 {
      forall u ensures Resumable(cfg, Look(w', u)) {
        CleanTwice(cfg, w, orders[0], u);
      }
      CleanTwice(cfg, w, orders[0], uid);
      DrainedOrWaiting(cfg, w', orders[1..], uid);
      DrainedOn(cfg, w, w', AfterPasses(cfg, w', orders[1..]), uid);
    }
  }

  lemma DrainedOn(cfg: Config, w: World, w': World, w'': World, uid: string)
    requires Look(w', uid) == CleanResult(cfg, w, uid) || (Look(w', uid) == Look(w, uid) && uid in Waiting(w))
    requires SameState(CleanResult(cfg, w', uid), CleanResult(cfg, w, uid))
    requires SameState(Look(w'', uid), CleanResult(cfg, w', uid)) || (Look(w'', uid) == Look(w', uid) && uid in Waiting(w''))
    ensures SameState(Look(w'', uid), CleanResult(cfg, w, uid)) || (Look(w'', uid) == Look(w, uid) && uid in Waiting(w''))
  {
    SameStateRefl(CleanResult(cfg, w, uid));
    if SameState(Look(w'', uid), CleanResult(cfg, w', uid)) {
      SameStateTrans(Look(w'', uid), CleanResult(cfg, w', uid), CleanResult(cfg, w, uid));
    }
  }

  // Once the passes allowed for the backlog have run, every contact is where one clean,
  // uncapped visit takes it - also after disturbed passes.
  lemma DrainedBookRecovers(cfg: Config, w: World, attempts: seq<Attempt>, orders: seq<seq<string>>, uid: string)
    requires AllResumable(cfg, w) && AllTolerable(cfg, w, attempts)
    requires var w' := AfterAttempts(cfg, w, attempts);
             && orders != [] && AllComplete(cfg, w', orders)
             && (cfg.cap > 0 ==> |orders| * cfg.cap >= |Waiting(w')|)
    ensures SameState(Look(AfterPasses(cfg, AfterAttempts(cfg, w, attempts), orders), uid), CleanResult(cfg, w, uid))
  {
    var w' := AfterAttempts(cfg, w, attempts);
    AttemptsPreserveResult(cfg, w, attempts, uid);
    AttemptsStayResumable(cfg, w, attempts);
    NoneWait(cfg, w', orders);
    DrainedOrWaiting(cfg, w', orders, uid);
    SameStateTrans(Look(AfterPasses(cfg, w', orders), uid), CleanResult(cfg, w', uid), CleanResult(cfg, w, uid));
  }

  lemma NoneWait(cfg: Config, w: World, orders: seq<seq<string>>)
    requires orders != [] && AllComplete(cfg, w, orders)
    requires cfg.cap > 0 ==> |orders| * cfg.cap >= |Waiting(w)|
    ensures Waiting(AfterPasses(cfg, w, orders)) == {}
  {
    if cfg.cap > 0 {
      BacklogDrains(cfg, w, orders);
    } else {
      UncappedDrains(cfg, w, orders);
    }
  }

  lemma {:induction false} UncappedDrains(cfg: Config, w: World, orders: seq<seq<string>>)
    requires cfg.cap <= 0 && orders != [] && AllComplete(cfg, w, orders)
    ensures Waiting(AfterPasses(cfg, w, orders)) == {}
    decreases |orders|
  {
    var w' := Reconciled(cfg, w, orders[0], CleanEnv()).world;
    DrainOnce(cfg, w, orders[0]);
    if |orders| > 1 {
      UncappedDrains(cfg, w', orders[1..]);
    } else {
      assert AfterPasses(cfg, w, orders) == w';
    }
  }
}
