// ForceContacts: the repair command, which bypasses the guards of an ordinary pass.
module Resync {
  import opened Sequences
  import opened Vcard
  import opened FieldEquality
  import opened ThreeWayMerge
  import opened SyncModel
  import opened ContactLaws
  import opened ContactSafety
  import opened AddressBook

  // One forced contact. `seen` is the contact as indexed when the command started, c as
  // it is now; `listed` says that Proton's contact list carried every UID, in which case
  // a card is fetched only when it has to be copied.
  function Forced(cfg: Config, seen: Contact, c: Contact, listed: bool, out: Outcome): Visit {
    var hasP, hasC := seen.proton.Some? && (listed || out.fetch), OnCardDAV(seen);
    if !hasP && !hasC then Idle(c)
    else if !hasC then
      if !out.fetch then Idle(c)
      else ForceToCardDAV(c, if listed then ProtonCard(c) else ProtonCard(seen), out)
    else if !hasP then CreateAndSave(cfg, c, CardDAVCard(seen), out)
    else ForceUpdate(cfg, c, CardDAVCard(seen), out)
  }

  function ForceToCardDAV(c: Contact, card: Card, out: Outcome): Visit {
    var c' := if Took(out.put) then c.(carddav := Some(card)) else c;
    var effects := [Put(card, out.put)];
    if out.put != Done then Visit(c', effects, false, false, false)
    else SaveBases(c', Bases(card, card), out, effects, false)
  }

  function ForceUpdate(cfg: Config, c: Contact, card: Card, out: Outcome): Visit {
    var c' := if Took(out.update) then c.(proton := Some(cfg.norm(card))) else c;
    var effects := [Update(card, out.update)];
    if out.update != Done then Visit(c', effects, false, false, false)
    else SaveBases(c', Bases(if out.updateReread then cfg.norm(card) else card, card), out, effects, false)
  }

  function ForceIn(cfg: Config, w: World, p: Pass, uid: string, listed: bool, env: Environment): Visit {
    Forced(cfg, Look(w, uid), Look(p.world, uid), listed, env(uid))
  }

  function ForceStep(cfg: Config, w: World, p: Pass, uid: string, listed: bool, env: Environment): Pass {
    if p.aborted then p else
      var v := ForceIn(cfg, w, p, uid, listed, env);
      Pass(Store(p.world, uid, v.contact), p.trace + Tagged(uid, v.effects), 0, 0, v.aborted)
  }

  function ForcedAll(cfg: Config, w: World, targets: seq<string>, listed: bool, env: Environment): Pass {
    if targets == [] then Start(w)
    else ForceStep(cfg, w, ForcedAll(cfg, w, targets[..|targets| - 1], listed, env), targets[|targets| - 1], listed, env)
  }

  // ---- Repair -----------------------------------------------------------------------

  lemma {:induction false} ForceUntouched(cfg: Config, w: World, targets: seq<string>, listed: bool, env: Environment, uid: string)
    requires uid !in targets
    ensures Look(ForcedAll(cfg, w, targets, listed, env).world, uid) == Look(w, uid)
  {
    if targets != [] {
      var rest, last := targets[..|targets| - 1], targets[|targets| - 1];
      ForceUntouched(cfg, w, rest, listed, env, uid);
      var p := ForcedAll(cfg, w, rest, listed, env);
      LookStore(p.world, last, ForceIn(cfg, w, p, last, listed, env).contact, uid);
    }
  }

  lemma {:induction false} CleanForceFinishes(cfg: Config, w: World, targets: seq<string>, listed: bool)
    ensures !ForcedAll(cfg, w, targets, listed, CleanEnv()).aborted
  {
    if targets != [] {
      CleanForceFinishes(cfg, w, targets[..|targets| - 1], listed);
    }
  }

  function Times(targets: seq<string>, uid: string): nat {
    if targets == [] then 0
    else Times(targets[..|targets| - 1], uid) + if targets[|targets| - 1] == uid then 1 else 0
  }

  lemma {:induction false} NamedTimes(targets: seq<string>, uid: string)
    ensures uid in targets <==> Times(targets, uid) > 0
  {
    if targets != [] {
      NamedTimes(targets[..|targets| - 1], uid);
      FrontLast(targets);
    }
  }

  predicate Recreated(c: Contact) {
    c.proton.None? && OnCardDAV(c)
  }

  // Forcing a contact again, by the same stale indexes, changes nothing - but a contact
  // that had to be created on Proton is created there a second time.
  lemma ForcedAgain(cfg: Config, seen: Contact, listed: bool, twin: bool)
    ensures var once := Forced(cfg, seen, seen, listed, CLEAN).contact;
            Forced(cfg, seen, once.(twin := twin), listed, CLEAN).contact == once.(twin := twin || Recreated(seen))
  {
  }

  ghost predicate ForcedOnce(cfg: Config, seen: Contact, c: Contact, listed: bool, times: nat) {
    var once := Forced(cfg, seen, seen, listed, CLEAN).contact;
    c == if times == 0 then seen else once.(twin := seen.twin || (Recreated(seen) && times >= 2))
  }

  // Where a clean repair leaves each contact: where one forcing leaves it. A second Proton
  // contact appears exactly when a target missing from Proton is named more than once.
  lemma {:induction false} ForcedAt(cfg: Config, w: World, targets: seq<string>, listed: bool, uid: string)
    ensures var c := Look(ForcedAll(cfg, w, targets, listed, CleanEnv()).world, uid);
            ForcedOnce(cfg, Look(w, uid), c, listed, Times(targets, uid))
  {
    if targets != [] {
      var rest, last := targets[..|targets| - 1], targets[|targets| - 1];
      var p := ForcedAll(cfg, w, rest, listed, CleanEnv());
      ForcedAt(cfg, w, rest, listed, uid);
      CleanForceFinishes(cfg, w, rest, listed);
      var v := ForceIn(cfg, w, p, last, listed, CleanEnv());
      LookStore(p.world, last, v.contact, uid);
      if last == uid {
        var seen := Look(w, uid);
        ForcedTwin(cfg, seen, listed);
        ForcedAgain(cfg, seen, listed, Look(p.world, uid).twin);
      }
    }
  }

  lemma ForcedTwin(cfg: Config, c: Contact, listed: bool)
    ensures Forced(cfg, c, c, listed, CLEAN).contact.twin == c.twin
  {
  }

  // A forced contact found on either side ends on both, with bases equal to the two
  // cards; it is then at rest exactly when Proton returned what it was sent.
  lemma ForceRepairs(cfg: Config, c: Contact, listed: bool)
    requires WellFormed(cfg, c) && (forall card :: Encodable(cfg.norm(card)))
    requires c.proton.Some? || OnCardDAV(c)
    ensures var v := Forced(cfg, c, c, listed, CLEAN);
            && v.contact.proton.Some? && OnCardDAV(v.contact)
            && v.contact.base == Some(Bases(ProtonCard(v.contact), CardDAVCard(v.contact)))
            && (OnCardDAV(c) ==> v.contact.carddav == c.carddav)
            && (AtRest(v.contact) <==> SendsFaithfully(cfg, v.effects))
  {
    var v := Forced(cfg, c, c, listed, CLEAN);
    RepairRests(cfg, v.contact);
    if OnCardDAV(c) {
      ForceSends(cfg, c, listed);
    } else {
      var pr := c.proton.value;
      assert !Differs(pr, pr, NO_CARD);
    }
  }

  lemma RepairRests(cfg: Config, c: Contact)
    requires c.proton.Some? && OnCardDAV(c) && c.base == Some(Bases(c.proton.value, c.carddav.value))
    ensures AtRest(c) <==> !Differs(c.carddav.value, c.proton.value, NO_CARD)
  {
    DiffersOwnBase(c.carddav.value, c.proton.value);
    assert Same(c.carddav.value, c.carddav.value);
  }

  lemma ForceSends(cfg: Config, c: Contact, listed: bool)
    requires OnCardDAV(c)
    ensures SendsFaithfully(cfg, Forced(cfg, c, c, listed, CLEAN).effects) <==> Faithful(cfg, c.carddav.value)
  {
    var effects := Forced(cfg, c, c, listed, CLEAN).effects;
    assert effects[0] in effects && SendsToProton(effects[0]) && effects[0].card == c.carddav.value;
    assert effects[1].Save? && |effects| == 2;
  }

  // Every contact that Proton lists or could be read there, and every CardDAV contact whose
  // card has a VERSION: what a repair of everything names, each once.
  ghost predicate NamesAll(w: World, listed: bool, env: Environment, targets: seq<string>) {
    && Distinct(targets)
    && forall uid :: uid in targets <==>
         (uid in w.proton && (listed || env(uid).fetch)) || (uid in w.carddav && At(w.carddav[uid], VERSION) != [])
  }

  // A clean repair of everything leaves each of them on both sides, with bases equal to its
  // cards, and CardDAV's card as it was.
  lemma RepairAllRepairs(cfg: Config, w: World, listed: bool, targets: seq<string>, uid: string)
    requires (forall u :: WellFormed(cfg, Look(w, u))) && (forall card :: Encodable(cfg.norm(card)))
    requires NamesAll(w, listed, CleanEnv(), targets)
    requires uid in w.proton || (uid in w.carddav && At(w.carddav[uid], VERSION) != [])
    ensures var w' := ForcedAll(cfg, w, targets, listed, CleanEnv()).world;
            && uid in w'.proton && uid in w'.carddav && At(w'.carddav[uid], VERSION) != []
            && uid in w'.db && w'.db[uid] == Bases(w'.proton[uid], w'.carddav[uid])
            && (uid in w.carddav && At(w.carddav[uid], VERSION) != [] ==>
                  w'.carddav[uid] == w.carddav[uid] && w'.proton[uid] == cfg.norm(w.carddav[uid]))
            && (uid !in w.carddav ==> w'.proton[uid] == w.proton[uid] == w'.carddav[uid])
  {
    var c := Look(w, uid);
    assert WellFormed(cfg, c);
    assert uid in targets;
    ForcedAt(cfg, w, targets, listed, uid);
    NamedTimes(targets, uid);
    ForceRepairs(cfg, c, listed);
    var once := Forced(cfg, c, c, listed, CLEAN).contact;
    var c' := Look(ForcedAll(cfg, w, targets, listed, CleanEnv()).world, uid);
    assert c'.proton == once.proton && c'.carddav == once.carddav && c'.base == once.base;
  }

  // ---- Unread repairs ---------------------------------------------------------------

  // A repair of a contact with a CardDAV card whose write arrives but is not read back.
  predicate UnreadRepair(c: Contact, listed: bool, out: Outcome) {
    && OnCardDAV(c)
    && if c.proton.Some? then (listed || out.fetch) && UnreadUpdate(out) else UnreadCreate(out)
  }

  // The card sent becomes Proton's base, old bases or not, and the next clean visit makes
  // CardDAV agree with Proton's copy on every mergeable property.
  lemma UnreadRepairStrips(cfg: Config, c: Contact, listed: bool, out: Outcome, name: string)
    requires UnreadRepair(c, listed, out) && Mergeable(name)
    ensures var c1 := Forced(cfg, c, c, listed, out).contact;
            var c2 := VisitContact(cfg, c1, false, CLEAN).contact;
            && FieldsEqual(At(CardDAVCard(c2), name), At(cfg.norm(c.carddav.value), name))
            && (At(CardDAVCard(c2), name) == [] <==> At(cfg.norm(c.carddav.value), name) == [])
  {
    PhantomBaseStrips(cfg, Forced(cfg, c, c, listed, out).contact, name);
  }

  // A repair copies Proton's card over a CardDAV card without VERSION, base or no base.
  lemma UnversionedRepair(cfg: Config, c: Contact, listed: bool, out: Outcome)
    requires c.carddav.Some? && !OnCardDAV(c)
    ensures Forced(cfg, c, c, listed, out).contact.carddav ==
            if c.proton.Some? && out.fetch && Took(out.put) then c.proton else c.carddav
  {
  }

  // ---- Repair, then sync ------------------------------------------------------------

  // After a repair without failures - even one that names a target repeatedly - an
  // ordinary pass, whatever its order, its replies and the point at which it stops, writes
  // nothing for the repaired contacts.
  lemma RepairThenQuiet(cfg: Config, w: World, targets: seq<string>, listed: bool, order: seq<string>, env: Environment, t: (string, Effect))
    requires forall uid :: WellFormed(cfg, Look(w, uid))
    requires forall card :: Encodable(cfg.norm(card))
    requires Distinct(order)
    requires t.0 in targets && (Look(w, t.0).proton.Some? || OnCardDAV(Look(w, t.0)))
    requires SendsFaithfully(cfg, Forced(cfg, Look(w, t.0), Look(w, t.0), listed, CLEAN).effects)
    requires t in Reconciled(cfg, ForcedAll(cfg, w, targets, listed, CleanEnv()).world, order, env).trace
    ensures !Writes(t.1)
  {
    var w' := ForcedAll(cfg, w, targets, listed, CleanEnv()).world;
    var full := TraceOrigin(cfg, w', order, env, t);
    assert WellFormed(cfg, Look(w, t.0));
    ForcedAt(cfg, w, targets, listed, t.0);
    NamedTimes(targets, t.0);
    ForceRepairs(cfg, Look(w, t.0), listed);
    var once := Forced(cfg, Look(w, t.0), Look(w, t.0), listed, CLEAN).contact;
    assert AtRest(Look(w', t.0)) <==> AtRest(once);
    RestIsQuiet(cfg, Look(w', t.0), full, env(t.0));
  }
}
