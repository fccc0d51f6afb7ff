// Safety of a single visit, for every reply of the environment: what a visit can lose,
// create or bring back.
module ContactSafety {
  import opened Vcard
  import opened FieldEquality
  import opened ThreeWayMerge
  import opened MergeLaws
  import opened SyncModel
  import opened ContactLaws

  // ---- Lossiness --------------------------------------------------------------------

  // The card carries no property outside `modelled`, VERSION aside.
  predicate Within(modelled: set<string>, card: Card) {
    card.Keys <= modelled + {VERSION}
  }

  // Proton's card and its recorded base stay inside what Proton models.
  predicate ReadBack(modelled: set<string>, c: Contact) {
    && (c.proton.Some? ==> Within(modelled, c.proton.value))
    && (c.base.Some? ==> Within(modelled, c.base.value.proton))
  }

  ghost predicate LossyStore(cfg: Config, modelled: set<string>) {
    forall card :: Within(modelled, cfg.norm(card))
  }

  lemma MergeKeepsUnmodelled(cfg: Config, modelled: set<string>, c: Contact, name: string)
    requires c.proton.Some? && OnCardDAV(c) && ReadBack(modelled, c)
    requires name !in modelled
    ensures At(Merged(cfg, c), name) == At(c.carddav.value, name)
  {
    var v := Versions4(c);
    var w := WinnerFor(cfg.rev, cfg.policy, v.pr, v.cd);
    if name == VERSION {
      MergeAt(cfg.rev, v, w, VERSION);
    } else {
      UnmodelledKept(cfg.rev, v, w, name);
    }
  }

  // The CardDAV index skips a card without VERSION; a contact without a base then looks
  // new, and the copy from Proton replaces the card. Nothing else touches such a card.
  predicate Overwrites(c: Contact, out: Outcome) {
    !OnCardDAV(c) && OnProton(c, out) && out.lookup && c.base.None? && Took(out.put)
  }

  lemma UnversionedCard(cfg: Config, c: Contact, full: bool, out: Outcome)
    requires c.carddav.Some? && !OnCardDAV(c)
    ensures VisitContact(cfg, c, full, out).contact.carddav == if Overwrites(c, out) then c.proton else c.carddav
  {
  }

  // No visit alters a CardDAV property that Proton does not model, REV and VERSION
  // included, as long as Proton's base was read back from Proton - except that a card
  // without VERSION loses all of them when it is overwritten.
  lemma VisitKeepsUnmodelled(cfg: Config, modelled: set<string>, c: Contact, full: bool, out: Outcome, name: string)
    requires c.carddav.Some? && ReadBack(modelled, c)
    requires name !in modelled
    ensures var c' := VisitContact(cfg, c, full, out).contact;
            && c'.carddav.Some?
            && (OnCardDAV(c) ==> OnCardDAV(c') && At(CardDAVCard(c'), name) == At(CardDAVCard(c), name))
            && (!OnCardDAV(c) && name != VERSION ==>
                  At(CardDAVCard(c'), name) == if Overwrites(c, out) then [] else At(CardDAVCard(c), name))
  {
    if OnProton(c, out) && OnCardDAV(c) {
      MergeKeepsUnmodelled(cfg, modelled, c, name);
      MergedHasVersion(cfg, c);
      VisitBothStops(cfg, c, full, out);
    } else if !OnCardDAV(c) {
      UnversionedCard(cfg, c, full, out);
    }
  }

  // The invariant is kept by every visit but an unread create of a card that goes beyond
  // what Proton models.
  lemma VisitStaysReadBack(cfg: Config, modelled: set<string>, c: Contact, full: bool, out: Outcome)
    requires ReadBack(modelled, c) && LossyStore(cfg, modelled)
    ensures ReadBack(modelled, VisitContact(cfg, c, full, out).contact) <==>
            !(Creating(c, full, out) && UnreadCreate(out) && !Within(modelled, CardDAVCard(c)))
  {
    if OnProton(c, out) && OnCardDAV(c) {
      VisitBothStops(cfg, c, full, out);
    }
  }

  // ---- Unread bases -----------------------------------------------------------------

  // When the card that was sent stands in for Proton's base, the next clean visit makes
  // CardDAV agree with Proton's copy on every mergeable property: whatever Proton dropped
  // is deleted, and nothing else is.
  lemma PhantomBaseStrips(cfg: Config, c: Contact, name: string)
    requires c.proton.Some? && OnCardDAV(c) && c.base == Some(Bases(c.carddav.value, c.carddav.value))
    requires Mergeable(name)
    ensures var c' := VisitContact(cfg, c, false, CLEAN).contact;
            && FieldsEqual(At(CardDAVCard(c'), name), At(c.proton.value, name))
            && (At(CardDAVCard(c'), name) == [] <==> At(c.proton.value, name) == [])
  {
    var v := Versions4(c);
    CleanBoth(cfg, c);
    MergeAt(cfg.rev, v, WinnerFor(cfg.rev, cfg.policy, v.pr, v.cd), name);
    var cd' := VisitContact(cfg, c, false, CLEAN).contact.carddav.value;
    assert Same(Merged(cfg, c), cd');
    assert FieldsEqual(At(Merged(cfg, c), name), At(cd', name));
  }

  lemma UnreadCreateStrips(cfg: Config, c: Contact, out: Outcome, name: string)
    requires c.proton.None? && OnCardDAV(c) && c.base.None?
    requires out.lookup && UnreadCreate(out)
    requires Mergeable(name)
    ensures var c1 := VisitContact(cfg, c, false, out).contact;
            var c2 := VisitContact(cfg, c1, false, CLEAN).contact;
            && FieldsEqual(At(CardDAVCard(c2), name), At(cfg.norm(c.carddav.value), name))
            && (At(CardDAVCard(c2), name) == [] && At(c.carddav.value, name) != []
                <==> At(c.carddav.value, name) != [] && At(cfg.norm(c.carddav.value), name) == [])
  {
    PhantomBaseStrips(cfg, VisitContact(cfg, c, false, out).contact, name);
  }

  // A milder case. When the re-read after an update fails, Proton's base stays behind: an
  // edit made on CardDAV alone is then reported as a conflict on exactly the properties
  // that the update had changed on Proton and that the edit really changes.
  lemma UnreadUpdateConflicts(cfg: Config, c: Contact, out: Outcome, edited: Card, name: string)
    requires c.proton.Some? && OnCardDAV(c) && WroteProton(cfg, c) && Mergeable(name)
    requires out.fetch && out.lookup && out.put == Done && UnreadUpdate(out)
    ensures var m, pr := Merged(cfg, c), c.proton.value;
            var c1 := VisitContact(cfg, c, false, out).contact.(carddav := Some(edited));
            name in ConflictNames(Versions(ProtonBase(c1), CardDAVBase(c1), ProtonCard(c1), edited)) <==>
            && !FieldsEqual(At(pr, name), At(cfg.norm(m), name))
            && !FieldsEqual(At(m, name), At(edited, name))
            && !FieldsEqual(At(cfg.norm(m), name), At(edited, name))
  {
    UnreadUpdateLeaves(cfg, c, out);
    ConflictAt(Versions(c.proton.value, Merged(cfg, c), cfg.norm(Merged(cfg, c)), edited), name);
  }

  lemma ConflictAt(v: Versions, name: string)
    requires Mergeable(name)
    ensures name in ConflictNames(v) <==> ClashAt(v, name)
  {
  }

  lemma UnreadUpdateLeaves(cfg: Config, c: Contact, out: Outcome)
    requires c.proton.Some? && OnCardDAV(c) && WroteProton(cfg, c)
    requires out.fetch && out.lookup && out.put == Done && UnreadUpdate(out)
    ensures var m, c1 := Merged(cfg, c), VisitContact(cfg, c, false, out).contact;
            c1.base == Some(Bases(c.proton.value, m)) && c1.proton == Some(cfg.norm(m))
  {
  }

  // With the re-read, an edit on one side alone never conflicts.
  lemma OneSidedEditIsNoConflict(cfg: Config, c: Contact, edited: Card)
    requires c.proton.Some? && OnCardDAV(c)
    ensures var c1 := VisitContact(cfg, c, false, CLEAN).contact;
            ConflictNames(Versions(ProtonBase(c1), CardDAVBase(c1), ProtonCard(c1), edited)) == {}
  {
    CleanBoth(cfg, c);
  }

  // ---- The documented limitation ----------------------------------------------------

  // After a clean visit the two sides agree on a property Proton can keep exactly when
  // Proton was written, or already modelled it, or nobody has it: the first value of a
  // property waits on CardDAV for some other change.
  lemma FirstValueWaits(cfg: Config, c: Contact, name: string)
    requires c.proton.Some? && OnCardDAV(c) && name != VERSION
    requires FieldsEqual(At(cfg.norm(Merged(cfg, c)), name), At(Merged(cfg, c), name))
    ensures var c' := VisitContact(cfg, c, false, CLEAN).contact;
            FieldsEqual(At(CardDAVCard(c'), name), At(ProtonCard(c'), name)) <==>
            || WroteProton(cfg, c)
            || name in c.proton.value || name in ProtonBase(c)
            || At(Merged(cfg, c), name) == []
  {
    CleanBoth(cfg, c);
    var c' := VisitContact(cfg, c, false, CLEAN).contact;
    AgreementAfter(Merged(cfg, c), c.proton.value, ProtonBase(c), c'.carddav.value, c'.proton.value, name);
  }

  lemma AgreementAfter(m: Card, pr: Card, pb: Card, cd': Card, pr': Card, name: string)
    requires Same(m, cd') && name != VERSION
    requires if Differs(m, pr, pb) then FieldsEqual(At(pr', name), At(m, name)) else pr' == pr
    ensures FieldsEqual(At(cd', name), At(pr', name)) <==>
            Differs(m, pr, pb) || name in pr || name in pb || At(m, name) == []
  {
    assert FieldsEqual(At(m, name), At(cd', name));
    if !Differs(m, pr, pb) && (name in pr || name in pb) {
      assert name in pr.Keys + pb.Keys;
    }
  }

  // ---- Creation, deletion, resurrection ---------------------------------------------

  function Landed(effects: seq<Effect>): nat {
    if effects == [] then 0
    else Landed(effects[..|effects| - 1]) +
         if effects[|effects| - 1].Create? && Took(effects[|effects| - 1].reply) then 1 else 0
  }

  function Present(c: Contact): nat {
    if c.proton.Some? then 1 else 0
  }

  lemma LandedOf(a: seq<Effect>, e: Effect)
    ensures Landed(a + [e]) == Landed(a) + if e.Create? && Took(e.reply) then 1 else 0
  {
    assert (a + [e])[..|a|] == a;
  }

  lemma CreateLands(cfg: Config, c: Contact, card: Card, out: Outcome)
    ensures Landed(CreateAndSave(cfg, c, card, out).effects) == if Took(out.create) then 1 else 0
  {
    var effects := CreateAndSave(cfg, c, card, out).effects;
    var create := Create(card, out.create);
    LandedOf([], create);
    assert [] + [create] == [create];
    if out.create == Done {
      assert effects == [create] + [effects[1]];
      LandedOf([create], effects[1]);
    } else {
      assert effects == [create];
    }
  }

  lemma AbsentBalance(cfg: Config, c: Contact, full: bool, out: Outcome)
    requires c.proton.None?
    ensures var v := VisitContact(cfg, c, full, out);
            Landed(v.effects) == Present(v.contact) && v.contact.twin == c.twin
  {
    if Creating(c, full, out) {
      CreateLands(cfg, c, c.carddav.value, out);
    }
  }

  // With a complete index, creates that land and Proton contacts balance: a visit never
  // creates a contact that is already there.
  lemma CreatesBalance(cfg: Config, c: Contact, full: bool, out: Outcome)
    requires out.fetch
    ensures var v := VisitContact(cfg, c, full, out);
            Present(c) + Landed(v.effects) == Present(v.contact) && v.contact.twin == c.twin
  {
    if c.proton.Some? {
      PresentCreatesNothing(cfg, c, full, out);
    } else {
      AbsentBalance(cfg, c, full, out);
    }
  }

  lemma PresentCreatesNothing(cfg: Config, c: Contact, full: bool, out: Outcome)
    requires out.fetch && c.proton.Some?
    ensures var v := VisitContact(cfg, c, full, out);
            Landed(v.effects) == 0 && v.contact.proton.Some? && v.contact.twin == c.twin
  {
    if OnCardDAV(c) {
      VisitBothIssues(cfg, c, out);
      VisitBothStops(cfg, c, full, out);
    }
    NoCreatesIn(VisitContact(cfg, c, full, out).effects);
  }

  lemma {:induction false} NoCreatesIn(effects: seq<Effect>)
    requires forall e | e in effects :: !e.Create?
    ensures Landed(effects) == 0
  {
    if effects != [] {
      NoCreatesIn(effects[..|effects| - 1]);
    }
  }

  // Nothing known about a contact is ever forgotten by a visit.
  lemma VisitForgetsNothing(cfg: Config, c: Contact, full: bool, out: Outcome)
    ensures var c' := VisitContact(cfg, c, full, out).contact;
            && (c.proton.Some? ==> c'.proton.Some?)
            && (c.carddav.Some? ==> c'.carddav.Some?)
            && (c.base.Some? ==> c'.base.Some?)
            && (c.twin ==> c'.twin)
  {
    if OnProton(c, out) && OnCardDAV(c) {
      VisitBothStops(cfg, c, full, out);
    }
  }

  // Once a contact has a base, a side from which it is missing, or could not be read, is
  // left alone for good: no create, no put, no change at all.
  lemma NoResurrection(cfg: Config, c: Contact, full: bool, out: Outcome)
    requires c.base.Some? && !(OnProton(c, out) && OnCardDAV(c))
    ensures var v := VisitContact(cfg, c, full, out);
            v.contact == c && v.effects == [] && !v.created
  {
  }

  // A second Proton contact appears exactly when the index misses a Proton contact that
  // has no base and a create goes through.
  lemma TwinExact(cfg: Config, c: Contact, full: bool, out: Outcome)
    ensures VisitContact(cfg, c, full, out).contact.twin <==>
            c.twin || (c.proton.Some? && !out.fetch && OnCardDAV(c) && c.base.None? && out.lookup && !full && Took(out.create))
  {
    if OnProton(c, out) && OnCardDAV(c) {
      VisitBothStops(cfg, c, full, out);
    }
  }
}
