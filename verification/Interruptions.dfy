// Any number of failed, interrupted or cancelled passes, followed by a clean one.
module Interruptions {
  import opened SyncModel
  import opened ContactLaws
  import opened ContactSafety
  import opened Recovery
  import opened AddressBook
  import opened Quiescence

  datatype Attempt = Attempt(order: seq<string>, env: Environment)

  ghost function AfterAttempts(cfg: Config, w: World, attempts: seq<Attempt>): World
    decreases |attempts|
  {
    if attempts == [] then w
    else AfterAttempts(cfg, Reconciled(cfg, w, attempts[0].order, attempts[0].env).world, attempts[1..])
  }

  // No attempt misses a base-less Proton contact in its index or creates a contact
  // without reading it back; beyond that anything may fail at any point.
  ghost predicate AllTolerable(cfg: Config, w: World, attempts: seq<Attempt>)
    decreases |attempts|
  {
    attempts == [] ||
    (&& Distinct(attempts[0].order)
     && (forall uid :: Tolerable(Look(w, uid), attempts[0].env(uid)))
     && AllTolerable(cfg, Reconciled(cfg, w, attempts[0].order, attempts[0].env).world, attempts[1..]))
  }

  ghost predicate AllResumable(cfg: Config, w: World) {
    && (forall uid :: Resumable(cfg, Look(w, uid)))
    && (forall card :: Encodable(cfg.norm(card)))
  }

  ghost function CleanResult(cfg: Config, w: World, uid: string): Contact {
    CleanEnd(cfg, Look(w, uid))
  }

  lemma OneAttempt(cfg: Config, w: World, a: Attempt, uid: string)
    requires AllResumable(cfg, w) && Distinct(a.order) && Tolerable(Look(w, uid), a.env(uid))
    ensures var w' := Reconciled(cfg, w, a.order, a.env).world;
            Resumable(cfg, Look(w', uid)) && SameState(CleanResult(cfg, w', uid), CleanResult(cfg, w, uid))
  {
    assert Resumable(cfg, Look(w, uid));
    var full := PassPointwise(cfg, w, a.order, a.env, uid);
    InterruptedVisitRecovers(cfg, Look(w, uid), full, a.env(uid));
    SameStateRefl(CleanResult(cfg, w, uid));
  }

  lemma {:induction false} AttemptsPreserveResult(cfg: Config, w: World, attempts: seq<Attempt>, uid: string)
    requires AllResumable(cfg, w) && AllTolerable(cfg, w, attempts)
    ensures SameState(CleanResult(cfg, AfterAttempts(cfg, w, attempts), uid), CleanResult(cfg, w, uid))
    decreases |attempts|
  {
    if attempts == [] {
      SameStateRefl(CleanResult(cfg, w, uid));
    } else {
      var w' := Reconciled(cfg, w, attempts[0].order, attempts[0].env).world;
      forall u ensures Resumable(cfg, Look(w', u)) {
        assert Tolerable(Look(w, u), attempts[0].env(u));
        OneAttempt(cfg, w, attempts[0], u);
      }
      OneAttempt(cfg, w, attempts[0], uid);
      AttemptsPreserveResult(cfg, w', attempts[1..], uid);
      SameStateTrans(CleanResult(cfg, AfterAttempts(cfg, w, attempts), uid), CleanResult(cfg, w', uid), CleanResult(cfg, w, uid));
    }
  }

  lemma {:induction false} AttemptsStayResumable(cfg: Config, w: World, attempts: seq<Attempt>)
    requires AllResumable(cfg, w) && AllTolerable(cfg, w, attempts)
    ensures AllResumable(cfg, AfterAttempts(cfg, w, attempts))
    decreases |attempts|
  {
    if attempts != [] {
      forall u ensures Resumable(cfg, Look(Reconciled(cfg, w, attempts[0].order, attempts[0].env).world, u)) {
        assert Tolerable(Look(w, u), attempts[0].env(u));
        OneAttempt(cfg, w, attempts[0], u);
      }
      AttemptsStayResumable(cfg, Reconciled(cfg, w, attempts[0].order, attempts[0].env).world, attempts[1..]);
    }
  }

  // Crash recovery for the whole book: after any run of disturbed passes, one clean pass
  // leaves every contact - both cards and both bases - as a clean pass from the start does.
  lemma DisturbedPassesRecover(cfg: Config, w: World, attempts: seq<Attempt>, late: seq<string>, early: seq<string>, uid: string)
    requires AllResumable(cfg, w) && AllTolerable(cfg, w, attempts)
    requires var w' := AfterAttempts(cfg, w, attempts);
             Complete(w', CleanEnv(), late) && Reconciled(cfg, w', late, CleanEnv()).deferred == 0
    requires Complete(w, CleanEnv(), early) && Reconciled(cfg, w, early, CleanEnv()).deferred == 0
    ensures SameState(Look(Reconciled(cfg, AfterAttempts(cfg, w, attempts), late, CleanEnv()).world, uid),
                      Look(Reconciled(cfg, w, early, CleanEnv()).world, uid))
  {
    AttemptsPreserveResult(cfg, w, attempts, uid);
    CleanPassAt(cfg, AfterAttempts(cfg, w, attempts), late, uid);
    CleanPassAt(cfg, w, early, uid);
  }

  // Nor can any book with another contact promise as much: one disturbed visit to that
  // contact is enough.
  lemma OthersDoNotRecover(cfg: Config, w: World, uid: string) returns (a: Attempt)
    requires WellFormed(cfg, Look(w, uid)) && !Resumable(cfg, Look(w, uid))
    ensures AllTolerable(cfg, w, [a])
    ensures !SameState(CleanResult(cfg, AfterAttempts(cfg, w, [a]), uid), CleanResult(cfg, w, uid))
  {
    var out := FailingReply(cfg, Look(w, uid));
    a := Attempt([uid], u => if u == uid then out else CLEAN);
    assert [uid][..0] == [] && [a][1..] == [];
    var p := Start(w);
    LookStore(w, uid, VisitIn(cfg, p, uid, a.env).contact, uid);
    assert Reconciled(cfg, w, [uid], a.env) == Step(cfg, p, uid, a.env);
  }

  // ---- Create once ------------------------------------------------------------------

  // Creates that reached Proton for one UID during the attempts.
  ghost function LandedFor(cfg: Config, w: World, attempts: seq<Attempt>, uid: string): nat
    decreases |attempts|
  {
    if attempts == [] then 0 else
      var p := Reconciled(cfg, w, attempts[0].order, attempts[0].env);
      LandedIn(p.trace, uid) + LandedFor(cfg, p.world, attempts[1..], uid)
  }

  function LandedIn(trace: seq<(string, Effect)>, uid: string): nat {
    if trace == [] then 0 else
      LandedIn(trace[..|trace| - 1], uid) +
      (var t := trace[|trace| - 1]; if t.0 == uid && t.1.Create? && Took(t.1.reply) then 1 else 0)
  }

  lemma {:induction false} LandedInTagged(trace: seq<(string, Effect)>, last: string, effects: seq<Effect>, uid: string)
    ensures LandedIn(trace + Tagged(last, effects), uid) == LandedIn(trace, uid) + if last == uid then Landed(effects) else 0
    decreases |effects|
  {
    if effects == [] {
      assert trace + Tagged(last, effects) == trace;
    } else {
      var es, e := effects[..|effects| - 1], effects[|effects| - 1];
      LandedInTagged(trace, last, es, uid);
      var all := trace + Tagged(last, effects);
      assert all[..|all| - 1] == trace + Tagged(last, es);
      assert all[|all| - 1] == (last, e);
    }
  }

  lemma {:induction false} PassBalance(cfg: Config, w: World, order: seq<string>, env: Environment, uid: string)
    requires forall u :: env(u).fetch
    ensures var p := Reconciled(cfg, w, order, env);
            && Present(Look(w, uid)) + LandedIn(p.trace, uid) == Present(Look(p.world, uid))
            && (uid in p.world.twins <==> uid in w.twins)
  {
    if order != [] {
      var rest, last := order[..|order| - 1], order[|order| - 1];
      PassBalance(cfg, w, rest, env, uid);
      var p := Reconciled(cfg, w, rest, env);
      if !p.aborted {
        var v := VisitIn(cfg, p, last, env);
        CreatesBalance(cfg, Look(p.world, last), CapReached(cfg, p.created), env(last));
        LandedInTagged(p.trace, last, v.effects, uid);
        LookStore(p.world, last, v.contact, uid);
      }
    }
  }

  // Create-once: with complete Proton indexes, however many passes run and however they
  // fail, at most one create per UID ever reaches Proton, and none if it was there.
  lemma {:induction false} CreatedAtMostOnce(cfg: Config, w: World, attempts: seq<Attempt>, uid: string)
    requires forall i | 0 <= i < |attempts| :: forall u :: attempts[i].env(u).fetch
    ensures Present(Look(w, uid)) + LandedFor(cfg, w, attempts, uid) == Present(Look(AfterAttempts(cfg, w, attempts), uid)) <= 1
    ensures uid in AfterAttempts(cfg, w, attempts).twins <==> uid in w.twins
    decreases |attempts|
  {
    if attempts != [] {
      assert forall u :: attempts[0].env(u).fetch;
      PassBalance(cfg, w, attempts[0].order, attempts[0].env, uid);
      forall i | 0 <= i < |attempts[1..]| ensures forall u :: attempts[1..][i].env(u).fetch {
        assert attempts[1..][i] == attempts[i + 1];
      }
      CreatedAtMostOnce(cfg, Reconciled(cfg, w, attempts[0].order, attempts[0].env).world, attempts[1..], uid);
    }
  }

  // A contact that has ever been synchronised is never created again: no create for it
  // reaches Proton, whichever side it is missing from or cannot be read on, however many
  // passes run and however they fail.
  lemma {:induction false} PassNeverRecreates(cfg: Config, w: World, order: seq<string>, env: Environment, uid: string)
    requires uid in w.db
    ensures var p := Reconciled(cfg, w, order, env);
            uid in p.world.db && LandedIn(p.trace, uid) == 0 && (uid in p.world.twins <==> uid in w.twins)
  {
    if order != [] {
      var rest, last := order[..|order| - 1], order[|order| - 1];
      PassNeverRecreates(cfg, w, rest, env, uid);
      var p := Reconciled(cfg, w, rest, env);
      if !p.aborted {
        var v := VisitIn(cfg, p, last, env);
        LandedInTagged(p.trace, last, v.effects, uid);
        LookStore(p.world, last, v.contact, uid);
        if last == uid {
          VisitNeverRecreates(cfg, Look(p.world, uid), CapReached(cfg, p.created), env(uid));
        }
      }
    }
  }

  lemma VisitNeverRecreates(cfg: Config, c: Contact, full: bool, out: Outcome)
    requires c.base.Some?
    ensures var v := VisitContact(cfg, c, full, out);
            v.contact.base.Some? && Landed(v.effects) == 0 && v.contact.twin == c.twin
  {
    if OnProton(c, out) && OnCardDAV(c) {
      VisitBothIssues(cfg, c, out);
      VisitBothStops(cfg, c, full, out);
      NoCreatesIn(VisitContact(cfg, c, full, out).effects);
    }
  }

  lemma {:induction false} NeverRecreated(cfg: Config, w: World, attempts: seq<Attempt>, uid: string)
    requires uid in w.db
    ensures LandedFor(cfg, w, attempts, uid) == 0
    ensures var w' := AfterAttempts(cfg, w, attempts);
            uid in w'.db && (uid in w'.twins <==> uid in w.twins)
    decreases |attempts|
  {
    if attempts != [] {
      PassNeverRecreates(cfg, w, attempts[0].order, attempts[0].env, uid);
      NeverRecreated(cfg, Reconciled(cfg, w, attempts[0].order, attempts[0].env).world, attempts[1..], uid);
    }
  }
}
