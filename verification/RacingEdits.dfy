// Users edit contacts while a pass is under way. A pass works from indexes read when it
// began, and its writes replace whole cards without asking whether they have changed.
module RacingEdits {
  import opened Vcard
  import opened FieldEquality
  import opened ThreeWayMerge
  import opened SyncModel
  import opened ContactLaws
  import opened ContactSafety
  import opened Recovery
  import opened AddressBook

  // ---- One contact ------------------------------------------------------------------

  // A write does to the contact as it is what it would have done to the contact as it was
  // read. An update of a Proton contact that is gone changes nothing.
  function LandOne(cfg: Config, c: Contact, e: Effect): Contact {
    if !Took(e.reply) then c
    else match e
      case Put(card, _) => c.(carddav := Some(card))
      case Create(card, _) => WithCreated(cfg, c, card)
      case Update(card, _) => if c.proton.Some? then c.(proton := Some(cfg.norm(card))) else c
      case Save(bases, _) => c.(base := Some(bases))
  }

  function Landing(cfg: Config, now: Contact, effects: seq<Effect>): Contact {
    if effects == [] then now
    else LandOne(cfg, Landing(cfg, now, effects[..|effects| - 1]), effects[|effects| - 1])
  }

  lemma LandingSnoc(cfg: Config, now: Contact, effects: seq<Effect>, e: Effect)
    ensures Landing(cfg, now, effects + [e]) == LandOne(cfg, Landing(cfg, now, effects), e)
  {
    assert (effects + [e])[..|effects|] == effects;
  }

  lemma LandingNone(cfg: Config, now: Contact)
    ensures Landing(cfg, now, []) == now
  {
  }

  lemma LandingOne(cfg: Config, now: Contact, e: Effect)
    ensures Landing(cfg, now, [e]) == LandOne(cfg, now, e)
  {
    assert [e][..0] == [];
  }

  lemma SaveLandsAsSaved(cfg: Config, c0: Contact, c: Contact, bases: Bases, out: Outcome, effects: seq<Effect>, created: bool)
    requires Landing(cfg, c0, effects) == c
    ensures var v := SaveBases(c, bases, out, effects, created); Landing(cfg, c0, v.effects) == v.contact
  {
    LandingSnoc(cfg, c0, effects, Save(bases, out.save));
  }

  lemma PushLands(cfg: Config, c0: Contact, c: Contact, merged: Card, out: Outcome, effects: seq<Effect>)
    requires c.proton.Some? && Landing(cfg, c0, effects) == c
    ensures var v := PushMerged(cfg, c, merged, out, effects); Landing(cfg, c0, v.effects) == v.contact
  {
    var pr := c.proton.value;
    if Differs(merged, pr, ProtonBase(c)) {
      var sent := effects + [Update(merged, out.update)];
      LandingSnoc(cfg, c0, effects, Update(merged, out.update));
      if out.update == Done {
        SaveLandsAsSaved(cfg, c0, c.(proton := Some(cfg.norm(merged))),
                         Bases(if out.updateReread then cfg.norm(merged) else pr, merged), out, sent, false);
      }
    } else {
      SaveLandsAsSaved(cfg, c0, c, Bases(pr, merged), out, effects, false);
    }
  }

  lemma BothLands(cfg: Config, c: Contact, merged: Card, out: Outcome)
    requires c.proton.Some? && c.carddav.Some?
    ensures var v := WriteBoth(cfg, c, merged, out); Landing(cfg, c, v.effects) == v.contact
  {
    if Same(merged, c.carddav.value) {
      LandingNone(cfg, c);
      PushLands(cfg, c, c, merged, out, []);
    } else {
      LandingOne(cfg, c, Put(merged, out.put));
      if out.put == Done {
        PushLands(cfg, c, c.(carddav := Some(merged)), merged, out, [Put(merged, out.put)]);
      }
    }
  }

  lemma CopyLands(cfg: Config, c: Contact, out: Outcome)
    requires c.proton.Some?
    ensures var v := CopyToCardDAV(c, out); Landing(cfg, c, v.effects) == v.contact
  {
    var pr := c.proton.value;
    LandingOne(cfg, c, Put(pr, out.put));
    if out.put == Done {
      SaveLandsAsSaved(cfg, c, c.(carddav := Some(pr)), Bases(pr, pr), out, [Put(pr, out.put)], false);
    }
  }

  lemma CreateAndSaveLands(cfg: Config, c: Contact, card: Card, out: Outcome)
    ensures var v := CreateAndSave(cfg, c, card, out); Landing(cfg, c, v.effects) == v.contact
  {
    LandingOne(cfg, c, Create(card, out.create));
    if out.create == Done {
      SaveLandsAsSaved(cfg, c, WithCreated(cfg, c, card), Bases(if out.createReread then cfg.norm(card) else card, card), out,
                       [Create(card, out.create)], true);
    }
  }

  // Without a race the writes land as the visit says.
  lemma NoRace(cfg: Config, c: Contact, full: bool, out: Outcome)
    ensures var v := VisitContact(cfg, c, full, out); Landing(cfg, c, v.effects) == v.contact
  {
    if OnProton(c, out) && OnCardDAV(c) {
      BothLands(cfg, c, Merged(cfg, c), out);
    } else if OnProton(c, out) {
      CopyLands(cfg, c, out);
    } else if OnCardDAV(c) {
      CreateAndSaveLands(cfg, c, c.carddav.value, out);
    }
  }

  // ---- What becomes of a racing edit ------------------------------------------------

  predicate PutLands(effects: seq<Effect>) {
    exists e :: e in effects && e.Put? && Took(e.reply)
  }

  predicate UpdateLands(effects: seq<Effect>) {
    exists e :: e in effects && e.Update? && Took(e.reply)
  }

  lemma InFront(effects: seq<Effect>, e: Effect)
    requires effects != []
    ensures e in effects <==> e in effects[..|effects| - 1] || e == effects[|effects| - 1]
  {
    assert effects == effects[..|effects| - 1] + [effects[|effects| - 1]];
  }

  // An edit on CardDAV - a change, an addition or a deletion - that races with writes is
  // gone without a trace if a put lands; otherwise it is as if made after them.
  lemma {:induction false} CardDAVRace(cfg: Config, c: Contact, edited: Option<Card>, effects: seq<Effect>)
    ensures Landing(cfg, c.(carddav := edited), effects) ==
            if PutLands(effects) then Landing(cfg, c, effects) else Landing(cfg, c, effects).(carddav := edited)
  {
    if effects != [] {
      CardDAVRace(cfg, c, edited, effects[..|effects| - 1]);
      forall e { InFront(effects, e); }
      var last := effects[|effects| - 1];
      assert last in effects;
    }
  }

  // The same on Proton, with the update in place of the put.
  lemma {:induction false} ProtonRace(cfg: Config, c: Contact, edited: Card, effects: seq<Effect>)
    requires c.proton.Some?
    ensures Landing(cfg, c, effects).proton.Some?
    ensures Landing(cfg, c.(proton := Some(edited)), effects) ==
            if UpdateLands(effects) then Landing(cfg, c, effects) else Landing(cfg, c, effects).(proton := Some(edited))
  {
    if effects != [] {
      ProtonRace(cfg, c, edited, effects[..|effects| - 1]);
      forall e { InFront(effects, e); }
      var last := effects[|effects| - 1];
      assert last in effects;
    }
  }

  // What a visit makes of the contact `now`, which was `seen` when the indexes were read.
  // The database row is read during the visit.
  ghost function RacedVisit(cfg: Config, seen: Contact, now: Contact, full: bool, out: Outcome): Contact {
    Landing(cfg, now, VisitContact(cfg, seen.(base := now.base), full, out).effects)
  }

  ghost predicate Puts(cfg: Config, c: Contact, out: Outcome)
    requires TwoSided(c)
  {
    out.fetch && out.lookup && !Same(Merged(cfg, c), c.carddav.value) && Took(out.put)
  }

  ghost predicate Updates(cfg: Config, c: Contact, out: Outcome)
    requires TwoSided(c)
  {
    && out.fetch && out.lookup && (Same(Merged(cfg, c), c.carddav.value) || out.put == Done)
    && WroteProton(cfg, c) && Took(out.update)
  }

  lemma PushWrites(cfg: Config, c: Contact, merged: Card, out: Outcome, effects: seq<Effect>)
    requires c.proton.Some? && !UpdateLands(effects)
    ensures var v := PushMerged(cfg, c, merged, out, effects);
            && (PutLands(v.effects) <==> PutLands(effects))
            && (UpdateLands(v.effects) <==> Differs(merged, c.proton.value, ProtonBase(c)) && Took(out.update))
  {
    var v, update := PushMerged(cfg, c, merged, out, effects), Update(merged, out.update);
    var wrote := Differs(merged, c.proton.value, ProtonBase(c));
    forall e ensures e in v.effects && !e.Save? <==> (e in effects && !e.Save?) || (wrote && e == update) {
      assert e in effects + [update] <==> e in effects || e == update;
    }
    if wrote {
      assert update in v.effects;
    }
  }

  lemma VisitWrites(cfg: Config, c: Contact, full: bool, out: Outcome)
    requires TwoSided(c)
    ensures out.fetch ==>
              var v := VisitContact(cfg, c, full, out);
              && (PutLands(v.effects) <==> Puts(cfg, c, out))
              && (UpdateLands(v.effects) <==> Updates(cfg, c, out))
  {
    var m := Merged(cfg, c);
    var put := [Put(m, out.put)];
    PushWrites(cfg, c, m, out, []);
    PushWrites(cfg, c.(carddav := Some(m)), m, out, put);
    assert put[0] in put;
  }

  // Exactly when a CardDAV edit of one property survives the pass it races with.
  lemma CardDAVEditSurvives(cfg: Config, seen: Contact, edited: Card, full: bool, out: Outcome, name: string)
    requires TwoSided(seen) && out.fetch
    ensures FieldsEqual(At(CardDAVCard(RacedVisit(cfg, seen, seen.(carddav := Some(edited)), full, out)), name), At(edited, name)) <==>
            !Puts(cfg, seen, out) || FieldsEqual(At(Merged(cfg, seen), name), At(edited, name))
  {
    var v := VisitContact(cfg, seen, full, out);
    assert seen.(base := seen.base) == seen;
    CardDAVRace(cfg, seen, Some(edited), v.effects);
    NoRace(cfg, seen, full, out);
    VisitWrites(cfg, seen, full, out);
    if Puts(cfg, seen, out) {
      PutArrives(cfg, seen, full, out);
    }
  }

  lemma PutArrives(cfg: Config, c: Contact, full: bool, out: Outcome)
    requires TwoSided(c) && Puts(cfg, c, out)
    ensures VisitContact(cfg, c, full, out).contact.carddav == Some(Merged(cfg, c))
  {
    PushKeepsCardDAV(cfg, c.(carddav := Some(Merged(cfg, c))), Merged(cfg, c), out, [Put(Merged(cfg, c), out.put)]);
  }

  lemma PushKeepsCardDAV(cfg: Config, c: Contact, merged: Card, out: Outcome, effects: seq<Effect>)
    requires c.proton.Some?
    ensures var v := PushMerged(cfg, c, merged, out, effects);
            && v.contact.carddav == c.carddav
            && (Differs(merged, c.proton.value, ProtonBase(c)) && Took(out.update) ==> v.contact.proton == Some(cfg.norm(merged)))
  {
  }

  // A property that Proton does not model is put back as it was when the index was read.
  lemma UnmodelledEditReverts(cfg: Config, modelled: set<string>, seen: Contact, edited: Card, full: bool, out: Outcome, name: string)
    requires TwoSided(seen) && ReadBack(modelled, seen) && name !in modelled && Puts(cfg, seen, out)
    ensures At(CardDAVCard(RacedVisit(cfg, seen, seen.(carddav := Some(edited)), full, out)), name) == At(seen.carddav.value, name)
  {
    assert seen.(base := seen.base) == seen;
    CardDAVRace(cfg, seen, Some(edited), VisitContact(cfg, seen, full, out).effects);
    NoRace(cfg, seen, full, out);
    VisitWrites(cfg, seen, full, out);
    PutArrives(cfg, seen, full, out);
    MergeKeepsUnmodelled(cfg, modelled, seen, name);
  }

  // Exactly when a Proton edit of one property survives.
  lemma ProtonEditSurvives(cfg: Config, seen: Contact, edited: Card, full: bool, out: Outcome, name: string)
    requires TwoSided(seen) && out.fetch
    ensures FieldsEqual(At(ProtonCard(RacedVisit(cfg, seen, seen.(proton := Some(edited)), full, out)), name), At(edited, name)) <==>
            !Updates(cfg, seen, out) || FieldsEqual(At(cfg.norm(Merged(cfg, seen)), name), At(edited, name))
  {
    var v := VisitContact(cfg, seen, full, out);
    assert seen.(base := seen.base) == seen;
    ProtonRace(cfg, seen, edited, v.effects);
    NoRace(cfg, seen, full, out);
    VisitWrites(cfg, seen, full, out);
    if Updates(cfg, seen, out) {
      UpdateArrives(cfg, seen, full, out);
    }
  }

  lemma UpdateArrives(cfg: Config, c: Contact, full: bool, out: Outcome)
    requires TwoSided(c) && Updates(cfg, c, out)
    ensures VisitContact(cfg, c, full, out).contact.proton == Some(cfg.norm(Merged(cfg, c)))
  {
    var m := Merged(cfg, c);
    PushKeepsCardDAV(cfg, c, m, out, []);
    PushKeepsCardDAV(cfg, c.(carddav := Some(m)), m, out, [Put(m, out.put)]);
  }

  // ---- Whole passes -----------------------------------------------------------------

  // A pass that began in w, whose contacts have become those of p.world.
  ghost function RacedStep(cfg: Config, w: World, p: Pass, uid: string, env: Environment): Pass {
    if p.aborted then p else
      var now := Look(p.world, uid);
      var v := VisitContact(cfg, Look(w, uid).(base := now.base), CapReached(cfg, p.created), env(uid));
      Pass(Store(p.world, uid, Landing(cfg, now, v.effects)), p.trace + Tagged(uid, v.effects),
           p.created + (if v.created then 1 else 0), p.deferred + (if v.deferred then 1 else 0), v.aborted)
  }

  // Users change w into `edited` after the indexes are read and before the writes. Edits
  // that come between two visits race with the later one only, since a visit writes to one
  // contact; they make no difference to the others.
  ghost function RacedPass(cfg: Config, w: World, edited: World, order: seq<string>, env: Environment): Pass {
    if order == [] then Start(edited)
    else RacedStep(cfg, w, RacedPass(cfg, w, edited, order[..|order| - 1], env), order[|order| - 1], env)
  }

  lemma {:induction false} RacedUntouched(cfg: Config, w: World, edited: World, order: seq<string>, env: Environment, uid: string)
    requires uid !in order
    ensures Look(RacedPass(cfg, w, edited, order, env).world, uid) == Look(edited, uid)
  {
    if order != [] {
      var rest, last := order[..|order| - 1], order[|order| - 1];
      RacedUntouched(cfg, w, edited, rest, env, uid);
      var p := RacedPass(cfg, w, edited, rest, env);
      var now := Look(p.world, last);
      LookStore(p.world, last, Landing(cfg, now, VisitContact(cfg, Look(w, last).(base := now.base), CapReached(cfg, p.created), env(last)).effects), uid);
    }
  }

  // Each contact of a raced pass is as the users left it, or as a raced visit leaves it.
  lemma {:induction false} RacedPointwise(cfg: Config, w: World, edited: World, order: seq<string>, env: Environment, uid: string)
    returns (full: bool)
    requires Distinct(order)
    ensures var c := Look(RacedPass(cfg, w, edited, order, env).world, uid);
            || c == RacedVisit(cfg, Look(w, uid), Look(edited, uid), full, env(uid))
            || (c == Look(edited, uid) && (uid in order ==> RacedPass(cfg, w, edited, order, env).aborted))
  {
    full := false;
    if uid !in order {
      RacedUntouched(cfg, w, edited, order, env, uid);
    } else {
      var rest, last := order[..|order| - 1], order[|order| - 1];
      var p := RacedPass(cfg, w, edited, rest, env);
      assert last !in rest;
      if uid == last {
        RacedUntouched(cfg, w, edited, rest, env, uid);
        full := CapReached(cfg, p.created);
        LookStore(p.world, uid, RacedVisit(cfg, Look(w, uid), Look(edited, uid), full, env(uid)), uid);
      } else {
        full := RacedPointwise(cfg, w, edited, rest, env, uid);
        assert uid in rest;
        var now := Look(p.world, last);
        LookStore(p.world, last, Landing(cfg, now, VisitContact(cfg, Look(w, last).(base := now.base), CapReached(cfg, p.created), env(last)).effects), uid);
      }
    }
  }

  // A pass without racing edits is the pass.
  lemma {:induction false} RacedIsReconciled(cfg: Config, w: World, order: seq<string>, env: Environment)
    requires Distinct(order)
    ensures RacedPass(cfg, w, w, order, env) == Reconciled(cfg, w, order, env)
  {
    if order != [] {
      var rest, last := order[..|order| - 1], order[|order| - 1];
      RacedIsReconciled(cfg, w, rest, env);
      var p := Reconciled(cfg, w, rest, env);
      assert last !in rest;
      Untouched(cfg, w, rest, env, last);
      NoRace(cfg, Look(w, last), CapReached(cfg, p.created), env(last));
      assert Look(w, last).(base := Look(p.world, last).base) == Look(w, last);
    }
  }
}
