// A Proton store that keeps a fixed set of properties: the premises of the general
// theorems hold of it, for every card.
module LossyProton {
  import opened Vcard
  import opened FieldEquality
  import opened ThreeWayMerge
  import opened MergeLaws
  import opened SyncModel
  import opened ContactLaws
  import opened ContactSafety
  import opened Recovery
  import opened AddressBook
  import opened Quiescence
  import opened Resync
  import opened History

  function KeepOnly(modelled: set<string>, card: Card): Card {
    (map name | name in card && name in modelled :: card[name])[VERSION := [Plain("4.0")]]
  }

  ghost predicate Keeps(cfg: Config, modelled: set<string>) {
    forall card :: cfg.norm(card) == KeepOnly(modelled, card)
  }

  lemma KeepOnlyAt(modelled: set<string>, card: Card, name: string)
    requires name != VERSION
    ensures At(KeepOnly(modelled, card), name) == if name in modelled then At(card, name) else []
  {
  }

  lemma KeptFaithfully(cfg: Config, modelled: set<string>, card: Card, base: Card)
    requires Keeps(cfg, modelled) && Within(modelled, base)
    ensures !Differs(card, cfg.norm(card), base)
    ensures Faithful(cfg, card)
  {
    var kept := cfg.norm(card);
    assert kept == KeepOnly(modelled, card);
    forall name | name in kept.Keys + base.Keys && name != VERSION
      ensures FieldsEqual(At(card, name), At(kept, name))
    {
      KeepOnlyAt(modelled, card, name);
    }
  }

  lemma KeepsIsLossy(cfg: Config, modelled: set<string>)
    requires Keeps(cfg, modelled)
    ensures ProtonOk(cfg, modelled)
  {
    forall card ensures Within(modelled, cfg.norm(card)) && Encodable(cfg.norm(card)) {
      assert cfg.norm(card) == KeepOnly(modelled, card);
    }
  }

  // Revision stamps no earlier than Go's zero time.
  ghost predicate Dated(rev: RevParser) {
    forall text :: rev(text).Some? ==> rev(text).value >= 0
  }

  // Every contact can be resumed unless its winner flips, which dated revisions rule out.
  lemma KeepsIsResumable(cfg: Config, modelled: set<string>, c: Contact)
    requires Keeps(cfg, modelled)
    requires WellFormed(cfg, c) && ReadBack(modelled, c)
    ensures Resumable(cfg, c) <==> (TwoSided(c) ==> !WinnerFlips(cfg.rev, cfg.policy, Versions4(c)))
    ensures Dated(cfg.rev) ==> Resumable(cfg, c)
  {
    if TwoSided(c) {
      KeptFaithfully(cfg, modelled, Merged(cfg, c), c.proton.value);
      KeptFaithfully(cfg, modelled, Merged(cfg, c), ProtonBase(c));
    }
    if c.carddav.Some? {
      KeptFaithfully(cfg, modelled, c.carddav.value, NO_CARD);
    }
    LandedIsResumable(cfg, c);
  }

  // Quiescence without side conditions: every clean pass brings the whole book to rest.
  lemma KeepsIsQuiet(cfg: Config, modelled: set<string>, w: World, first: seq<string>, second: seq<string>, env: Environment)
    requires Keeps(cfg, modelled)
    requires forall uid :: WellFormed(cfg, Look(w, uid))
    requires Complete(w, CleanEnv(), first) && Reconciled(cfg, w, first, CleanEnv()).deferred == 0
    ensures var w' := Reconciled(cfg, w, first, CleanEnv()).world;
            var p := Reconciled(cfg, w', second, env);
            QuietPass(p) && SameBook(p.world, w')
  {
    KeepsIsLossy(cfg, modelled);
    CleanPassSettles(cfg, w, first);
    var p := Reconciled(cfg, w, first, CleanEnv());
    forall t | t in p.trace && SendsToProton(t.1) ensures Faithful(cfg, t.1.card) {
      KeptFaithfully(cfg, modelled, t.1.card, NO_CARD);
    }
    RestPassQuiet(cfg, p.world, second, env);
  }

  // With such a store, an unread create costs CardDAV exactly the mergeable properties
  // that Proton does not model.
  lemma UnreadCreateLoses(cfg: Config, modelled: set<string>, c: Contact, out: Outcome, name: string)
    requires Keeps(cfg, modelled)
    requires c.proton.None? && OnCardDAV(c) && c.base.None?
    requires out.lookup && UnreadCreate(out)
    requires Mergeable(name) && At(CardDAVCard(c), name) != []
    ensures var c2 := VisitContact(cfg, VisitContact(cfg, c, false, out).contact, false, CLEAN).contact;
            At(CardDAVCard(c2), name) == [] <==> name !in modelled
  {
    UnreadCreateStrips(cfg, c, out, name);
    assert cfg.norm(c.carddav.value) == KeepOnly(modelled, c.carddav.value);
    KeepOnlyAt(modelled, c.carddav.value, name);
  }

  // So does an unread repair, whatever the bases were before.
  lemma UnreadRepairLoses(cfg: Config, modelled: set<string>, c: Contact, listed: bool, out: Outcome, name: string)
    requires Keeps(cfg, modelled)
    requires UnreadRepair(c, listed, out)
    requires Mergeable(name) && At(CardDAVCard(c), name) != []
    ensures var c2 := VisitContact(cfg, Forced(cfg, c, c, listed, out).contact, false, CLEAN).contact;
            At(CardDAVCard(c2), name) == [] <==> name !in modelled
  {
    UnreadRepairStrips(cfg, c, listed, out, name);
    assert cfg.norm(c.carddav.value) == KeepOnly(modelled, c.carddav.value);
    KeepOnlyAt(modelled, c.carddav.value, name);
  }
}
