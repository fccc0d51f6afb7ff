// Guarantees about a single contact, over all replies of the environment.
module ContactLaws {
  import opened Vcard
  import opened FieldEquality
  import opened ThreeWayMerge
  import opened MergeLaws
  import opened SyncModel

  // Proton returned the card with every property it kept unchanged.
  ghost predicate Faithful(cfg: Config, sent: Card) {
    !Differs(sent, cfg.norm(sent), NO_CARD)
  }

  // Proton cards are read through Cards.Merge, which always supplies VERSION.
  predicate WellFormed(cfg: Config, c: Contact) {
    c.proton.Some? ==> Encodable(c.proton.value)
  }

  ghost predicate SendsFaithfully(cfg: Config, effects: seq<Effect>) {
    forall e | e in effects && SendsToProton(e) :: Faithful(cfg, e.card)
  }

  // A contact that a pass leaves alone: the two sides agree on what Proton models and the
  // bases record them, or it is settled one-sided, or nobody indexes it.
  ghost predicate AtRest(c: Contact) {
    if c.proton.Some? && OnCardDAV(c) then
      && c.base.Some?
      && !Differs(c.carddav.value, c.proton.value, c.base.value.proton)
      && Same(c.base.value.carddav, c.carddav.value)
      && c.base.value.proton == c.proton.value
    else (c.proton.Some? || OnCardDAV(c)) ==> c.base.Some?
  }

  // ---- Convergence ------------------------------------------------------------------

  lemma MergedHasVersion(cfg: Config, c: Contact)
    requires c.proton.Some? && c.carddav.Some?
    ensures Encodable(Merged(cfg, c))
  {
    MergeAt(cfg.rev, Versions4(c), WinnerFor(cfg.rev, cfg.policy, c.proton.value, c.carddav.value), VERSION);
  }

  ghost predicate WroteProton(cfg: Config, c: Contact)
    requires c.proton.Some? && c.carddav.Some?
  {
    Differs(Merged(cfg, c), c.proton.value, ProtonBase(c))
  }

  // What an unfailed visit to a two-sided contact leaves behind, and what it issued.
  lemma CleanBoth(cfg: Config, c: Contact)
    requires c.proton.Some? && OnCardDAV(c)
    ensures var v, m := VisitContact(cfg, c, false, CLEAN), Merged(cfg, c);
            var wrote := WroteProton(cfg, c);
            var pr := if wrote then cfg.norm(m) else c.proton.value;
            && v.contact == c.(proton := Some(pr), carddav := Some(if Same(m, c.carddav.value) then c.carddav.value else m),
                               base := Some(Bases(pr, m)))
            && OnCardDAV(v.contact) && Same(m, v.contact.carddav.value)
            && !v.aborted && !v.deferred && !v.created
            && v.effects == (if Same(m, c.carddav.value) then [] else [Put(m, Done)])
                            + (if wrote then [Update(m, Done)] else [])
                            + [Save(Bases(pr, m), Done)]
  {
    MergedHasVersion(cfg, c);
    var m := Merged(cfg, c);
    assert Same(m, m);
    CleanPush(cfg, c, m, []);
    CleanPush(cfg, c.(carddav := Some(m)), m, [Put(m, Done)]);
    var pr := if WroteProton(cfg, c) then cfg.norm(m) else c.proton.value;
    var rest := (if WroteProton(cfg, c) then [Update(m, Done)] else []) + [Save(Bases(pr, m), Done)];
    assert [] + rest == rest;
  }

  lemma CleanPush(cfg: Config, c: Contact, m: Card, effects: seq<Effect>)
    requires c.proton.Some?
    ensures var v := PushMerged(cfg, c, m, CLEAN, effects);
            var wrote := Differs(m, c.proton.value, ProtonBase(c));
            var pr := if wrote then cfg.norm(m) else c.proton.value;
            && v.contact == c.(proton := Some(pr), base := Some(Bases(pr, m)))
            && !v.aborted && !v.deferred && !v.created
            && v.effects == effects + (if wrote then [Update(m, Done)] else []) + [Save(Bases(pr, m), Done)]
  {
  }

  lemma CleanBothSends(cfg: Config, c: Contact)
    requires c.proton.Some? && OnCardDAV(c)
    ensures var v := VisitContact(cfg, c, false, CLEAN);
            && (SendsFaithfully(cfg, v.effects) <==> (WroteProton(cfg, c) ==> Faithful(cfg, Merged(cfg, c))))
            && (Quiet(v.effects) <==> Same(Merged(cfg, c), c.carddav.value) && !WroteProton(cfg, c))
  {
    CleanBoth(cfg, c);
    var m := Merged(cfg, c);
    var puts := if Same(m, c.carddav.value) then [] else [Put(m, Done)];
    var sends := if WroteProton(cfg, c) then [Update(m, Done)] else [];
    var saves := [Save(Bases(if WroteProton(cfg, c) then cfg.norm(m) else c.proton.value, m), Done)];
    EffectsConcat(cfg, puts + sends, saves);
    EffectsConcat(cfg, puts, sends);
    EffectsOne(cfg, Put(m, Done));
    EffectsOne(cfg, Update(m, Done));
    EffectsOne(cfg, saves[0]);
  }

  lemma EffectsConcat(cfg: Config, a: seq<Effect>, b: seq<Effect>)
    ensures SendsFaithfully(cfg, a + b) <==> SendsFaithfully(cfg, a) && SendsFaithfully(cfg, b)
    ensures Quiet(a + b) <==> Quiet(a) && Quiet(b)
  {
    forall e ensures e in a + b <==> e in a || e in b {}
  }

  lemma EffectsOne(cfg: Config, e: Effect)
    ensures SendsFaithfully(cfg, [e]) <==> (SendsToProton(e) ==> Faithful(cfg, e.card))
    ensures Quiet([e]) <==> !Writes(e)
  {
    assert e in [e];
  }

  lemma CleanBothSettles(cfg: Config, c: Contact)
    requires c.proton.Some? && OnCardDAV(c)
    ensures var v := VisitContact(cfg, c, false, CLEAN);
            AtRest(v.contact) <==> SendsFaithfully(cfg, v.effects)
  {
    CleanBoth(cfg, c);
    CleanBothSends(cfg, c);
    var m := Merged(cfg, c);
    var after := VisitContact(cfg, c, false, CLEAN).contact;
    var cd, pr := CardDAVCard(after), ProtonCard(after);
    DiffersRespectsSame(m, cd, pr, pr);
    DiffersOwnBase(m, pr);
    if !WroteProton(cfg, c) {
      DiffersShrinks(m, pr, ProtonBase(c));
    }
  }

  lemma CleanCopySettles(cfg: Config, c: Contact)
    requires c.proton.Some? && !OnCardDAV(c) && Encodable(c.proton.value)
    ensures var v := VisitContact(cfg, c, false, CLEAN);
            AtRest(v.contact) && SendsFaithfully(cfg, v.effects) && WellFormed(cfg, v.contact)
  {
    var pr := c.proton.value;
    var v := VisitContact(cfg, c, false, CLEAN);
    if c.base.None? {
      assert v.effects == [Put(pr, Done), Save(Bases(pr, pr), Done)];
      assert v.contact == c.(carddav := Some(pr), base := Some(Bases(pr, pr)));
      CopyRests(v.contact, pr);
    }
  }

  lemma CopyRests(c: Contact, pr: Card)
    requires c.proton == Some(pr) && c.carddav == Some(pr) && c.base == Some(Bases(pr, pr)) && Encodable(pr)
    ensures AtRest(c)
  {
    assert !Differs(pr, pr, pr) && Same(pr, pr);
  }

  lemma CleanCreateSettles(cfg: Config, c: Contact)
    requires c.proton.None?
    requires forall card :: Encodable(cfg.norm(card))
    ensures var v := VisitContact(cfg, c, false, CLEAN);
            && WellFormed(cfg, v.contact)
            && (AtRest(v.contact) <==> SendsFaithfully(cfg, v.effects))
  {
    if OnCardDAV(c) && c.base.None? {
      var cd := c.carddav.value;
      assert Same(cd, cd);
      DiffersOwnBase(cd, cfg.norm(cd));
      var v := VisitContact(cfg, c, false, CLEAN);
      assert v.effects == [Create(cd, Done), Save(Bases(cfg.norm(cd), cd), Done)];
      assert Create(cd, Done) in v.effects;
    }
  }

  // The cards a clean visit sends: the merge, or the card to create.
  lemma CleanSends(cfg: Config, c: Contact)
    ensures SendsFaithfully(cfg, VisitContact(cfg, c, false, CLEAN).effects) <==>
            && (c.proton.Some? && OnCardDAV(c) && WroteProton(cfg, c) ==> Faithful(cfg, Merged(cfg, c)))
            && (c.proton.None? && OnCardDAV(c) && c.base.None? ==> Faithful(cfg, c.carddav.value))
  {
    var effects := VisitContact(cfg, c, false, CLEAN).effects;
    if c.proton.Some? && OnCardDAV(c) {
      CleanBothSends(cfg, c);
    } else if c.proton.None? && OnCardDAV(c) && c.base.None? {
      var cd := c.carddav.value;
      assert effects == [Create(cd, Done), Save(Bases(cfg.norm(cd), cd), Done)];
      assert Create(cd, Done) in effects;
    }
  }

  // After an unfailed visit the contact is at rest exactly when Proton returned what it
  // was sent: every property on Proton's card then equals CardDAV's.
  lemma CleanVisitSettles(cfg: Config, c: Contact)
    requires WellFormed(cfg, c)
    requires forall card :: Encodable(cfg.norm(card))
    ensures var v := VisitContact(cfg, c, false, CLEAN);
            && WellFormed(cfg, v.contact)
            && (AtRest(v.contact) <==> SendsFaithfully(cfg, v.effects))
  {
    if c.proton.None? {
      CleanCreateSettles(cfg, c);
    } else if OnCardDAV(c) {
      CleanBoth(cfg, c);
      CleanBothSettles(cfg, c);
    } else {
      CleanCopySettles(cfg, c);
    }
  }

  lemma DiffersOwnBase(m: Card, pr: Card)
    ensures Differs(m, pr, pr) == Differs(m, pr, NO_CARD)
  {
    if Differs(m, pr, pr) {
      var name :| name in pr.Keys + pr.Keys && name != VERSION && !FieldsEqual(At(m, name), At(pr, name));
      assert name in pr.Keys + NO_CARD.Keys;
    }
    if Differs(m, pr, NO_CARD) {
      var name :| name in pr.Keys + NO_CARD.Keys && name != VERSION && !FieldsEqual(At(m, name), At(pr, name));
      assert name in pr.Keys + pr.Keys;
    }
  }

  lemma DiffersShrinks(m: Card, pr: Card, pb: Card)
    requires !Differs(m, pr, pb)
    ensures !Differs(m, pr, NO_CARD) && !Differs(m, pr, pr)
  {
    forall name | name in pr && name != VERSION ensures FieldsEqual(At(m, name), At(pr, name)) {
      assert name in pr.Keys + pb.Keys;
    }
  }

  // Convergence: after an unfailed visit, whether or not Proton was written, every property
  // on Proton's card but VERSION reads the same on CardDAV's.
  lemma CleanVisitConverges(cfg: Config, c: Contact, name: string)
    requires WellFormed(cfg, c) && (forall card :: Encodable(cfg.norm(card)))
    requires SendsFaithfully(cfg, VisitContact(cfg, c, false, CLEAN).effects)
    ensures var c' := VisitContact(cfg, c, false, CLEAN).contact;
            c'.proton.Some? && OnCardDAV(c') && name in ProtonCard(c') && name != VERSION ==>
              FieldsEqual(At(CardDAVCard(c'), name), At(ProtonCard(c'), name))
  {
    CleanVisitSettles(cfg, c);
    var c' := VisitContact(cfg, c, false, CLEAN).contact;
    RestAgrees(c', name);
  }

  lemma RestAgrees(c: Contact, name: string)
    requires AtRest(c)
    ensures c.proton.Some? && OnCardDAV(c) && name in ProtonCard(c) && name != VERSION ==>
              FieldsEqual(At(CardDAVCard(c), name), At(ProtonCard(c), name))
  {
    if c.proton.Some? && OnCardDAV(c) && name in ProtonCard(c) && name != VERSION {
      assert name in c.proton.value.Keys + c.base.value.proton.Keys;
    }
  }

  // ---- Stopping points --------------------------------------------------------------

  // Where a visit to a two-sided contact can stop.
  ghost predicate StoppedAt(cfg: Config, c: Contact, s: Contact)
    requires c.proton.Some? && OnCardDAV(c)
  {
    var m, pr := Merged(cfg, c), c.proton.value;
    var cd := if Same(m, c.carddav.value) then c.carddav.value else m;
    || s == c
    || s == c.(carddav := Some(cd))
    || (WroteProton(cfg, c) && s == c.(carddav := Some(cd), proton := Some(cfg.norm(m))))
    || (WroteProton(cfg, c) && s == c.(carddav := Some(cd), proton := Some(cfg.norm(m)), base := Some(Bases(cfg.norm(m), m))))
    || (WroteProton(cfg, c) && s == c.(carddav := Some(cd), proton := Some(cfg.norm(m)), base := Some(Bases(pr, m))))
    || (!WroteProton(cfg, c) && s == c.(carddav := Some(cd), base := Some(Bases(pr, m))))
  }

  lemma VisitBothStops(cfg: Config, c: Contact, full: bool, out: Outcome)
    requires c.proton.Some? && OnCardDAV(c) && out.fetch
    ensures StoppedAt(cfg, c, VisitContact(cfg, c, full, out).contact)
  {
    var m := Merged(cfg, c);
    var cd := if Same(m, c.carddav.value) then c.carddav.value else m;
    PushStops(cfg, c.(carddav := Some(cd)), m, out, []);
    PushStops(cfg, c.(carddav := Some(cd)), m, out, [Put(m, out.put)]);
    assert Same(m, c.carddav.value) ==> c.(carddav := Some(cd)) == c;
  }

  lemma PushStops(cfg: Config, c: Contact, m: Card, out: Outcome, effects: seq<Effect>)
    requires c.proton.Some?
    ensures var s, pr := PushMerged(cfg, c, m, out, effects).contact, c.proton.value;
            if Differs(m, pr, ProtonBase(c)) then
              || s == c
              || s == c.(proton := Some(cfg.norm(m)))
              || s == c.(proton := Some(cfg.norm(m)), base := Some(Bases(cfg.norm(m), m)))
              || s == c.(proton := Some(cfg.norm(m)), base := Some(Bases(pr, m)))
            else s == c || s == c.(base := Some(Bases(pr, m)))
  {
  }

  // A two-sided visit issues no create.
  lemma PushIssues(cfg: Config, c: Contact, m: Card, out: Outcome, effects: seq<Effect>)
    requires c.proton.Some?
    requires forall e | e in effects :: !e.Create?
    ensures forall e | e in PushMerged(cfg, c, m, out, effects).effects :: !e.Create?
    ensures !PushMerged(cfg, c, m, out, effects).created && !PushMerged(cfg, c, m, out, effects).deferred
  {
    var sent := effects + [Update(m, out.update)];
    assert forall e | e in sent :: !e.Create?;
  }

  lemma VisitBothIssues(cfg: Config, c: Contact, out: Outcome)
    requires c.proton.Some? && c.carddav.Some?
    ensures forall e | e in VisitBoth(cfg, c, out).effects :: !e.Create?
    ensures !VisitBoth(cfg, c, out).created && !VisitBoth(cfg, c, out).deferred
  {
    var m := Merged(cfg, c);
    var c' := if Took(out.put) then c.(carddav := Some(m)) else c;
    PushIssues(cfg, c, m, out, []);
    PushIssues(cfg, c', m, out, [Put(m, out.put)]);
  }

  // ---- Quiescence -------------------------------------------------------------------

  // A contact at rest stays as it is, whatever the replies: only its bases are rewritten,
  // with equal ones.
  lemma RestIsQuiet(cfg: Config, c: Contact, full: bool, out: Outcome)
    requires AtRest(c)
    ensures var v := VisitContact(cfg, c, full, out);
            && Quiet(v.effects) && !v.created && !v.deferred
            && AtRest(v.contact)
            && v.contact.proton == c.proton && v.contact.carddav == c.carddav && v.contact.twin == c.twin
            && v.contact.base.Some? == c.base.Some?
            && (c.base.Some? ==> v.contact.base.value.proton == c.base.value.proton
                                 && Same(v.contact.base.value.carddav, c.base.value.carddav))
  {
    if OnProton(c, out) && OnCardDAV(c) && out.lookup {
      var pr, cd := c.proton.value, c.carddav.value;
      var m := Merged(cfg, c);
      NothingToWriteExact(cfg.rev, Versions4(c), WinnerFor(cfg.rev, cfg.policy, pr, cd));
      assert Same(m, c.base.value.carddav);
    }
  }

  // Only contacts at rest are quiet under a clean visit; so one clean visit after another
  // is quiet exactly when Proton returned what it was sent.
  lemma UnrestWrites(cfg: Config, c: Contact)
    requires c.proton.Some? && OnCardDAV(c) && c.base.Some?
    requires Differs(c.carddav.value, c.proton.value, c.base.value.proton)
    ensures !Quiet(VisitContact(cfg, c, false, CLEAN).effects)
  {
    NothingToWriteExact(cfg.rev, Versions4(c), WinnerFor(cfg.rev, cfg.policy, c.proton.value, c.carddav.value));
    CleanBothSends(cfg, c);
  }

  lemma SecondPassQuietExact(cfg: Config, c: Contact)
    requires WellFormed(cfg, c)
    requires forall card :: Encodable(cfg.norm(card))
    ensures var v := VisitContact(cfg, c, false, CLEAN);
            Quiet(VisitContact(cfg, v.contact, false, CLEAN).effects) <==> SendsFaithfully(cfg, v.effects)
  {
    CleanVisitSettles(cfg, c);
    var v := VisitContact(cfg, c, false, CLEAN);
    if SendsFaithfully(cfg, v.effects) {
      RestIsQuiet(cfg, v.contact, false, CLEAN);
    } else {
      UnfaithfulUnrest(cfg, c);
      UnrestWrites(cfg, v.contact);
    }
  }

  lemma UnfaithfulUnrest(cfg: Config, c: Contact)
    requires !SendsFaithfully(cfg, VisitContact(cfg, c, false, CLEAN).effects)
    ensures var c' := VisitContact(cfg, c, false, CLEAN).contact;
            && c'.proton.Some? && OnCardDAV(c') && c'.base.Some?
            && Differs(c'.carddav.value, c'.proton.value, c'.base.value.proton)
  {
    var v := VisitContact(cfg, c, false, CLEAN);
    if c.proton.Some? && OnCardDAV(c) {
      CleanBoth(cfg, c);
      CleanBothSends(cfg, c);
      var m := Merged(cfg, c);
      DiffersOwnBase(m, cfg.norm(m));
      DiffersRespectsSame(m, v.contact.carddav.value, cfg.norm(m), cfg.norm(m));
    } else if c.base.None? && OnCardDAV(c) {
      var cd := c.carddav.value;
      assert v.effects == [Create(cd, Done), Save(Bases(cfg.norm(cd), cd), Done)];
      DiffersOwnBase(cd, cfg.norm(cd));
    }
  }
}
