// A Proton store that also normalises: what comes back has been through the card
// splitter. The general theorems hold of it under conditions on the cards it is sent.
module NormalisingProton {
  import opened Vcard
  import opened FieldEquality
  import opened ThreeWayMerge
  import opened CardSplit
  import opened CardNormal
  import opened SyncModel
  import opened ContactLaws
  import opened ContactSafety
  import opened Recovery
  import opened AddressBook
  import opened Quiescence
  import opened Interruptions
  import opened History
  import opened LossyProton

  ghost predicate Normalises(cfg: Config, modelled: set<string>) {
    forall card :: cfg.norm(card) == KeepOnly(modelled, RoundTrip(card))
  }

  lemma NormalisedAt(cfg: Config, modelled: set<string>, card: Card, name: string)
    requires Normalises(cfg, modelled) && name != VERSION
    ensures At(cfg.norm(card), name) == if name in modelled then At(RoundTrip(card), name) else []
    ensures name in cfg.norm(card) <==> name in modelled && name in RoundTrip(card)
  {
    assert cfg.norm(card) == KeepOnly(modelled, RoundTrip(card));
    KeepOnlyAt(modelled, RoundTrip(card), name);
  }

  lemma NormalisesIsLossy(cfg: Config, modelled: set<string>)
    requires Normalises(cfg, modelled)
    ensures ProtonOk(cfg, modelled)
  {
    forall card ensures Within(modelled, cfg.norm(card)) && Encodable(cfg.norm(card)) {
      assert cfg.norm(card) == KeepOnly(modelled, RoundTrip(card));
    }
  }

  // Splitting `card` and merging the parts gives the property back, as the merge sees it.
  ghost predicate Survives(card: Card, name: string) {
    FieldsEqual(At(card, name), At(RoundTrip(card), name))
  }

  // So it does for every modelled property that comes back or is listed in `names`.
  ghost predicate Returned(modelled: set<string>, card: Card, names: set<string>) {
    forall name | name in modelled && name != VERSION && (name in RoundTrip(card) || name in names) :: Survives(card, name)
  }

  lemma DiffersExactly(cfg: Config, modelled: set<string>, card: Card, base: Card)
    requires Normalises(cfg, modelled) && Within(modelled, base)
    ensures !Differs(card, cfg.norm(card), base) <==> Returned(modelled, card, base.Keys)
  {
    var kept := cfg.norm(card);
    forall name | name != VERSION
      ensures name in kept.Keys + base.Keys <==> name in modelled && (name in RoundTrip(card) || name in base)
      ensures name in modelled ==> At(kept, name) == At(RoundTrip(card), name)
    {
      NormalisedAt(cfg, modelled, card, name);
    }
    if Returned(modelled, card, base.Keys) {
      forall name | name in kept.Keys + base.Keys && name != VERSION
        ensures FieldsEqual(At(card, name), At(kept, name))
      {
        assert Survives(card, name);
      }
    }
    if !Differs(card, kept, base) {
      forall name | name in modelled && name != VERSION && (name in RoundTrip(card) || name in base)
        ensures Survives(card, name)
      {
        assert name in kept.Keys + base.Keys;
      }
    }
  }

  lemma FaithfulExactly(cfg: Config, modelled: set<string>, card: Card)
    requires Normalises(cfg, modelled)
    ensures Faithful(cfg, card) <==> Returned(modelled, card, {})
  {
    DiffersExactly(cfg, modelled, card, NO_CARD);
    assert NO_CARD.Keys == {};
  }

  // A normal card is returned faithfully, whatever is compared.
  lemma NormalIsReturned(modelled: set<string>, card: Card, names: set<string>)
    requires Normal(card)
    ensures Returned(modelled, card, names)
  {
    forall name | name != VERSION ensures Survives(card, name) {
      NormalIsInvisible(card, name);
    }
  }

  lemma NormalIsFaithful(cfg: Config, modelled: set<string>, card: Card, base: Card)
    requires Normalises(cfg, modelled) && Normal(card) && Within(modelled, base)
    ensures Faithful(cfg, card) && !Differs(card, cfg.norm(card), base)
  {
    NormalIsReturned(modelled, card, base.Keys);
    NormalIsReturned(modelled, card, {});
    DiffersExactly(cfg, modelled, card, base);
    FaithfulExactly(cfg, modelled, card);
  }

  // ---- The general theorems, instantiated -------------------------------------------

  // Histories are lossless, with no further condition.
  lemma NormalisingHistoriesAreLossless(cfg: Config, modelled: set<string>, w: World, events: seq<Event>, uid: string)
    requires Normalises(cfg, modelled) && ContactOk(cfg, modelled, Look(w, uid))
    requires forall e | e in events :: Permitted(modelled, e, uid)
    ensures Lossless(cfg, modelled, w, events, uid)
  {
    NormalisesIsLossy(cfg, modelled);
    HistoriesAreLossless(cfg, modelled, w, events, uid);
  }

  // The card a clean visit sends to Proton, if any, comes back as it was - in `also` too.
  ghost predicate SendsBack(cfg: Config, modelled: set<string>, c: Contact, also: bool) {
    && (TwoSided(c) && WroteProton(cfg, c) ==>
          Returned(modelled, Merged(cfg, c), if also then c.proton.value.Keys + ProtonBase(c).Keys else {}))
    && (Waits(c) ==> Returned(modelled, c.carddav.value, {}))
  }

  lemma ReturnedSplits(modelled: set<string>, card: Card, a: set<string>, b: set<string>)
    ensures Returned(modelled, card, a + b) <==> Returned(modelled, card, a) && Returned(modelled, card, b)
  {
  }

  lemma LandsExactly(cfg: Config, modelled: set<string>, card: Card, before: Card, base: Card)
    requires Normalises(cfg, modelled) && Within(modelled, before) && Within(modelled, base)
    ensures Lands(cfg, card, before, base) <==> Returned(modelled, card, before.Keys + base.Keys)
  {
    DiffersExactly(cfg, modelled, card, before);
    DiffersExactly(cfg, modelled, card, base);
    ReturnedSplits(modelled, card, before.Keys, base.Keys);
  }

  // What a clean visit sends lands exactly when it survives the splitter in everything
  // Proton returns, has, or had. That is enough for recovery, though not necessary.
  lemma SendsLandExactly(cfg: Config, modelled: set<string>, c: Contact)
    requires Normalises(cfg, modelled) && ContactOk(cfg, modelled, c)
    ensures SendsLand(cfg, c) <==> SendsBack(cfg, modelled, c, true)
  {
    if TwoSided(c) {
      LandsExactly(cfg, modelled, Merged(cfg, c), c.proton.value, ProtonBase(c));
    } else if Waits(c) {
      FaithfulExactly(cfg, modelled, c.carddav.value);
    }
  }

  // Crash recovery for the whole book.
  lemma NormalisingPassesRecover(cfg: Config, modelled: set<string>, w: World, attempts: seq<Attempt>, late: seq<string>, early: seq<string>, uid: string)
    requires Normalises(cfg, modelled) && Dated(cfg.rev)
    requires forall u :: ContactOk(cfg, modelled, Look(w, u)) && SendsBack(cfg, modelled, Look(w, u), true)
    requires AllTolerable(cfg, w, attempts)
    requires var w' := AfterAttempts(cfg, w, attempts);
             Complete(w', CleanEnv(), late) && Reconciled(cfg, w', late, CleanEnv()).deferred == 0
    requires Complete(w, CleanEnv(), early) && Reconciled(cfg, w, early, CleanEnv()).deferred == 0
    ensures SameState(Look(Reconciled(cfg, AfterAttempts(cfg, w, attempts), late, CleanEnv()).world, uid),
                      Look(Reconciled(cfg, w, early, CleanEnv()).world, uid))
  {
    NormalisesIsLossy(cfg, modelled);
    forall u ensures Resumable(cfg, Look(w, u)) {
      assert ContactOk(cfg, modelled, Look(w, u));
      SendsLandExactly(cfg, modelled, Look(w, u));
      LandedIsResumable(cfg, Look(w, u));
    }
    DisturbedPassesRecover(cfg, w, attempts, late, early, uid);
  }

  lemma SendsFaithfullyExactly(cfg: Config, modelled: set<string>, c: Contact)
    requires Normalises(cfg, modelled)
    ensures SendsFaithfully(cfg, VisitContact(cfg, c, false, CLEAN).effects) <==> SendsBack(cfg, modelled, c, false)
  {
    CleanSends(cfg, c);
    if TwoSided(c) {
      FaithfulExactly(cfg, modelled, Merged(cfg, c));
    }
    if Waits(c) {
      FaithfulExactly(cfg, modelled, c.carddav.value);
    }
  }

  // Quiescence for the whole book: the second of two clean passes writes nothing exactly
  // when every card that the first had to send survives the splitter.
  lemma NormalisingIsQuietExactly(cfg: Config, modelled: set<string>, w: World, first: seq<string>, second: seq<string>)
    requires Normalises(cfg, modelled) && forall uid :: WellFormed(cfg, Look(w, uid))
    requires Complete(w, CleanEnv(), first) && Reconciled(cfg, w, first, CleanEnv()).deferred == 0
    requires Complete(Reconciled(cfg, w, first, CleanEnv()).world, CleanEnv(), second)
    ensures QuietPass(Reconciled(cfg, Reconciled(cfg, w, first, CleanEnv()).world, second, CleanEnv())) <==>
            forall uid :: SendsBack(cfg, modelled, Look(w, uid), false)
  {
    NormalisesIsLossy(cfg, modelled);
    SecondPassQuiet(cfg, w, first, second);
    SentPointwise(cfg, w, first);
    forall uid
      ensures SendsFaithfully(cfg, VisitContact(cfg, Look(w, uid), false, CLEAN).effects)
              <==> SendsBack(cfg, modelled, Look(w, uid), false)
    {
      SendsFaithfullyExactly(cfg, modelled, Look(w, uid));
    }
  }
}
