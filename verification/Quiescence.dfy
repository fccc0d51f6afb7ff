// A pass over an address book that has come to rest writes nothing; when that is so.
module Quiescence {
  import opened Vcard
  import opened FieldEquality
  import opened ThreeWayMerge
  import opened SyncModel
  import opened ContactLaws
  import opened AddressBook

  ghost predicate AllRest(w: World) {
    forall uid :: AtRest(Look(w, uid))
  }

  ghost predicate AllWellFormed(cfg: Config, w: World) {
    && (forall uid :: WellFormed(cfg, Look(w, uid)))
    && (forall card :: Encodable(cfg.norm(card)))
  }

  predicate QuietPass(p: Pass) {
    forall t | t in p.trace :: !Writes(t.1)
  }

  // Everything a pass handed to Proton came back unchanged in the properties Proton kept.
  ghost predicate SentFaithfully(cfg: Config, p: Pass) {
    forall t | t in p.trace && SendsToProton(t.1) :: Faithful(cfg, t.1.card)
  }

  // Same stores, same rows, same bases (CardDAV's up to field order).
  ghost predicate SameBook(a: World, b: World) {
    && a.proton == b.proton && a.carddav == b.carddav && a.twins == b.twins
    && a.db.Keys == b.db.Keys
    && forall uid | uid in a.db :: a.db[uid].proton == b.db[uid].proton && Same(a.db[uid].carddav, b.db[uid].carddav)
  }

  lemma StoreSame(w: World, uid: string, c: Contact)
    requires c.proton == Find(w.proton, uid) && c.carddav == Find(w.carddav, uid) && c.twin == (uid in w.twins)
    ensures var w' := Store(w, uid, c);
            w'.proton == w.proton && w'.carddav == w.carddav && w'.twins == w.twins
  {
  }

  lemma SameBookStep(w0: World, w: World, uid: string, c: Contact)
    requires SameBook(w, w0)
    requires var d := Look(w, uid);
             && c.proton == d.proton && c.carddav == d.carddav && c.twin == d.twin && c.base.Some? == d.base.Some?
             && (d.base.Some? ==> c.base.value.proton == d.base.value.proton && Same(c.base.value.carddav, d.base.value.carddav))
    ensures SameBook(Store(w, uid, c), w0)
  {
    StoreSame(w, uid, c);
    if uid in w0.db {
      var x, y, z := c.base.value.carddav, w.db[uid].carddav, w0.db[uid].carddav;
      assert Same(y, z);
      SameChain(x, y, z);
    }
  }

  lemma SameChain(x: Card, y: Card, z: Card)
    requires Same(x, y) && Same(y, z)
    ensures Same(x, z)
  {
    forall name ensures FieldsEqual(At(x, name), At(z, name)) {
      assert FieldsEqual(At(x, name), At(y, name)) && FieldsEqual(At(y, name), At(z, name));
    }
  }

  // At rest stays at rest: any pass, complete or cut short, with any replies, issues no
  // put, create or update and changes nothing.
  lemma {:induction false} RestPassQuiet(cfg: Config, w: World, order: seq<string>, env: Environment)
    requires AllRest(w)
    ensures var p := Reconciled(cfg, w, order, env);
            QuietPass(p) && p.created == 0 && p.deferred == 0 && AllRest(p.world) && SameBook(p.world, w)
  {
    if order == [] {
      forall uid | uid in w.db ensures Same(w.db[uid].carddav, w.db[uid].carddav) {}
    } else {
      var rest, last := order[..|order| - 1], order[|order| - 1];
      RestPassQuiet(cfg, w, rest, env);
      var p := Reconciled(cfg, w, rest, env);
      if !p.aborted {
        RestStep(cfg, w, p, last, env);
      }
    }
  }

  lemma RestStep(cfg: Config, w: World, p: Pass, uid: string, env: Environment)
    requires !p.aborted && QuietPass(p) && p.created == 0 && p.deferred == 0 && AllRest(p.world) && SameBook(p.world, w)
    ensures var q := Step(cfg, p, uid, env);
            QuietPass(q) && q.created == 0 && q.deferred == 0 && AllRest(q.world) && SameBook(q.world, w)
  {
    var v := VisitIn(cfg, p, uid, env);
    assert AtRest(Look(p.world, uid));
    RestIsQuiet(cfg, Look(p.world, uid), CapReached(cfg, p.created), env(uid));
    SameBookStep(w, p.world, uid, v.contact);
    var q := Step(cfg, p, uid, env);
    forall other ensures AtRest(Look(q.world, other)) {
      LookStore(p.world, uid, v.contact, other);
      assert AtRest(Look(p.world, other));
    }
    forall t | t in q.trace ensures !Writes(t.1) {
      if t !in p.trace {
        var i :| 0 <= i < |v.effects| && Tagged(uid, v.effects)[i] == t;
        assert v.effects[i] in v.effects;
      }
    }
  }

  // What a complete, clean, undeferred pass does to each contact.
  lemma CleanPassAt(cfg: Config, w: World, order: seq<string>, uid: string)
    requires Complete(w, CleanEnv(), order) && Reconciled(cfg, w, order, CleanEnv()).deferred == 0
    ensures Look(Reconciled(cfg, w, order, CleanEnv()).world, uid) == VisitContact(cfg, Look(w, uid), false, CLEAN).contact
  {
    CleanPassFinishes(cfg, w, order);
    if uid in order {
      FullVisit(cfg, w, order, CleanEnv(), uid);
    } else {
      Untouched(cfg, w, order, CleanEnv(), uid);
      assert uid !in Indexed(w, CleanEnv());
    }
  }

  lemma CleanPassEffects(cfg: Config, w: World, order: seq<string>, uid: string, e: Effect)
    requires Complete(w, CleanEnv(), order) && Reconciled(cfg, w, order, CleanEnv()).deferred == 0
    ensures (uid, e) in Reconciled(cfg, w, order, CleanEnv()).trace <==> e in VisitContact(cfg, Look(w, uid), false, CLEAN).effects
  {
    CleanPassFinishes(cfg, w, order);
    var p := Reconciled(cfg, w, order, CleanEnv());
    if (uid, e) in p.trace {
      var full := TraceOrigin(cfg, w, order, CleanEnv(), (uid, e));
    }
    if e in VisitContact(cfg, Look(w, uid), false, CLEAN).effects {
      assert uid in Indexed(w, CleanEnv());
      FullVisit(cfg, w, order, CleanEnv(), uid);
    }
  }

  // Quiescence: after a clean pass the whole book is at rest if and only if Proton
  // returned everything it was sent.
  lemma CleanPassSettles(cfg: Config, w: World, order: seq<string>)
    requires AllWellFormed(cfg, w)
    requires Complete(w, CleanEnv(), order) && Reconciled(cfg, w, order, CleanEnv()).deferred == 0
    ensures var p := Reconciled(cfg, w, order, CleanEnv());
            AllWellFormed(cfg, p.world) && (AllRest(p.world) <==> SentFaithfully(cfg, p))
  {
    var p := Reconciled(cfg, w, order, CleanEnv());
    forall uid
      ensures WellFormed(cfg, Look(p.world, uid))
      ensures AtRest(Look(p.world, uid)) <==> SendsFaithfully(cfg, VisitContact(cfg, Look(w, uid), false, CLEAN).effects)
    {
      assert WellFormed(cfg, Look(w, uid));
      CleanPassAt(cfg, w, order, uid);
      CleanVisitSettles(cfg, Look(w, uid));
    }
    if AllRest(p.world) {
      forall t | t in p.trace && SendsToProton(t.1) ensures Faithful(cfg, t.1.card) {
        assert AtRest(Look(p.world, t.0));
        CleanPassEffects(cfg, w, order, t.0, t.1);
      }
    }
    if SentFaithfully(cfg, p) {
      forall uid ensures AtRest(Look(p.world, uid)) {
        var v := VisitContact(cfg, Look(w, uid), false, CLEAN);
        forall e | e in v.effects && SendsToProton(e) ensures Faithful(cfg, e.card) {
          CleanPassEffects(cfg, w, order, uid, e);
          assert (uid, e) in p.trace;
        }
      }
    }
  }

  // A clean pass is answered faithfully exactly when each of its visits is.
  lemma SentPointwise(cfg: Config, w: World, order: seq<string>)
    requires Complete(w, CleanEnv(), order) && Reconciled(cfg, w, order, CleanEnv()).deferred == 0
    ensures SentFaithfully(cfg, Reconciled(cfg, w, order, CleanEnv())) <==>
            forall uid :: SendsFaithfully(cfg, VisitContact(cfg, Look(w, uid), false, CLEAN).effects)
  {
    var p := Reconciled(cfg, w, order, CleanEnv());
    if SentFaithfully(cfg, p) {
      forall uid, e | e in VisitContact(cfg, Look(w, uid), false, CLEAN).effects && SendsToProton(e)
        ensures Faithful(cfg, e.card)
      {
        CleanPassEffects(cfg, w, order, uid, e);
        assert (uid, e) in p.trace;
      }
    }
    if forall uid :: SendsFaithfully(cfg, VisitContact(cfg, Look(w, uid), false, CLEAN).effects) {
      forall t | t in p.trace && SendsToProton(t.1) ensures Faithful(cfg, t.1.card) {
        CleanPassEffects(cfg, w, order, t.0, t.1);
        assert SendsFaithfully(cfg, VisitContact(cfg, Look(w, t.0), false, CLEAN).effects);
      }
    }
  }

  // The second of two clean passes with no edits between writes nothing exactly when the
  // first was answered faithfully - for every mix of contacts and every visiting order.
  lemma SecondPassQuiet(cfg: Config, w: World, first: seq<string>, second: seq<string>)
    requires AllWellFormed(cfg, w)
    requires Complete(w, CleanEnv(), first) && Reconciled(cfg, w, first, CleanEnv()).deferred == 0
    requires Complete(Reconciled(cfg, w, first, CleanEnv()).world, CleanEnv(), second)
    ensures var p := Reconciled(cfg, w, first, CleanEnv());
            QuietPass(Reconciled(cfg, p.world, second, CleanEnv())) <==> SentFaithfully(cfg, p)
  {
    var p := Reconciled(cfg, w, first, CleanEnv());
    CleanPassSettles(cfg, w, first);
    if SentFaithfully(cfg, p) {
      RestPassQuiet(cfg, p.world, second, CleanEnv());
    } else {
      var t :| t in p.trace && SendsToProton(t.1) && !Faithful(cfg, t.1.card);
      CleanPassEffects(cfg, w, first, t.0, t.1);
      CleanPassAt(cfg, w, first, t.0);
      UnfaithfulUnrest(cfg, Look(w, t.0));
      UnrestNoticed(cfg, p.world, second, t.0);
    }
  }

  lemma UnrestNoticed(cfg: Config, w: World, order: seq<string>, uid: string)
    requires Complete(w, CleanEnv(), order)
    requires var c := Look(w, uid);
             c.proton.Some? && OnCardDAV(c) && c.base.Some? && Differs(c.carddav.value, c.proton.value, c.base.value.proton)
    ensures !QuietPass(Reconciled(cfg, w, order, CleanEnv()))
  {
    CleanPassFinishes(cfg, w, order);
    var c := Look(w, uid);
    assert uid in Indexed(w, CleanEnv());
    var full := PassPointwise(cfg, w, order, CleanEnv(), uid);
    UnrestWrites(cfg, c);
    assert VisitContact(cfg, c, full, CLEAN) == VisitContact(cfg, c, false, CLEAN);
    var e :| e in VisitContact(cfg, c, full, CLEAN).effects && Writes(e);
    assert (uid, e) in Reconciled(cfg, w, order, CleanEnv()).trace;
  }
}
