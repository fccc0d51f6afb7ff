// What survives failed, interrupted and repeated visits to one contact.
module Recovery {
  import opened Vcard
  import opened FieldEquality
  import opened ThreeWayMerge
  import opened MergeLaws
  import opened SyncModel
  import opened ContactLaws

  // ---- Reruns -----------------------------------------------------------------------

  // Same cards on both sides, same bases (CardDAV's up to field order).
  ghost predicate SameState(a: Contact, b: Contact) {
    && a.proton == b.proton && a.carddav == b.carddav && a.twin == b.twin
    && a.base.Some? == b.base.Some?
    && (a.base.Some? ==> a.base.value.proton == b.base.value.proton && Same(a.base.value.carddav, b.base.value.carddav))
  }

  lemma SameTrans(a: Card, b: Card, c: Card)
    requires Same(a, b) && Same(c, b)
    ensures Same(a, c)
  {
    forall name ensures FieldsEqual(At(a, name), At(c, name)) {
      assert FieldsEqual(At(a, name), At(b, name)) && FieldsEqual(At(c, name), At(b, name));
    }
  }

  lemma SameStateRefl(a: Contact)
    ensures SameState(a, a)
  {
    assert a.base.Some? ==> Same(a.base.value.carddav, a.base.value.carddav);
  }

  lemma SameStateTrans(a: Contact, b: Contact, c: Contact)
    requires SameState(a, b) && SameState(b, c)
    ensures SameState(a, c)
  {
    if a.base.Some? {
      forall name ensures FieldsEqual(At(a.base.value.carddav, name), At(c.base.value.carddav, name)) {
        assert FieldsEqual(At(a.base.value.carddav, name), At(b.base.value.carddav, name));
        assert FieldsEqual(At(b.base.value.carddav, name), At(c.base.value.carddav, name));
      }
    }
  }

  ghost function CleanEnd(cfg: Config, c: Contact): Contact {
    VisitContact(cfg, c, false, CLEAN).contact
  }

  ghost function Winner(cfg: Config, c: Contact): Side
    requires c.proton.Some? && c.carddav.Some?
  {
    WinnerFor(cfg.rev, cfg.policy, c.proton.value, c.carddav.value)
  }

  // A clean visit leaves both cards as they are: every CardDAV property stands in the
  // merge, and if Proton is written it returns what it returned before.
  ghost predicate CardsStay(cfg: Config, s: Contact)
    requires s.proton.Some? && s.carddav.Some?
  {
    && (forall name :: Stands(cfg.rev, Versions4(s), Winner(cfg, s), name))
    && (Differs(s.carddav.value, s.proton.value, ProtonBase(s)) ==> cfg.norm(Merged(cfg, s)) == s.proton.value)
  }

  lemma CardsStayExactly(cfg: Config, s: Contact)
    requires s.proton.Some? && OnCardDAV(s)
    ensures CardsStay(cfg, s) <==> CleanEnd(cfg, s).proton == s.proton && CleanEnd(cfg, s).carddav == s.carddav
    ensures CardsStay(cfg, s) ==>
              && Same(Merged(cfg, s), s.carddav.value)
              && CleanEnd(cfg, s) == s.(base := Some(Bases(s.proton.value, Merged(cfg, s))))
  {
    var m, cd := Merged(cfg, s), s.carddav.value;
    AllStandExactly(cfg.rev, Versions4(s), Winner(cfg, s));
    assert Same(m, m);
    if Same(m, cd) {
      DiffersRespectsSame(m, cd, s.proton.value, ProtonBase(s));
    }
    CleanBoth(cfg, s);
  }

  // Rerunning from s reaches e, a state with the same cards, exactly when they stay.
  lemma RerunExactly(cfg: Config, s: Contact, e: Contact)
    requires s.proton.Some? && OnCardDAV(s)
    requires e.proton == s.proton && e.carddav == s.carddav && e.twin == s.twin
    requires e.base.Some? && e.base.value.proton == s.proton.value && Same(e.base.value.carddav, s.carddav.value)
    ensures SameState(CleanEnd(cfg, s), e) <==> CardsStay(cfg, s)
  {
    CardsStayExactly(cfg, s);
    if CardsStay(cfg, s) {
      SameTrans(Merged(cfg, s), s.carddav.value, e.base.value.carddav) by {
        assert forall name :: FieldsEqual(At(e.base.value.carddav, name), At(s.carddav.value, name));
      }
    }
  }

  // Both sides present and in agreement on everything Proton models or modelled.
  ghost predicate Settled(c: Contact) {
    c.proton.Some? && OnCardDAV(c) && !Differs(c.carddav.value, c.proton.value, ProtonBase(c))
  }

  lemma SettledStays(cfg: Config, c: Contact)
    requires Settled(c)
    ensures CardsStay(cfg, c) && !WroteProton(cfg, c)
  {
    NothingToWriteExact(cfg.rev, Versions4(c), Winner(cfg, c));
    AllStandExactly(cfg.rev, Versions4(c), Winner(cfg, c));
  }

  // ---- The contacts that can be resumed ---------------------------------------------

  ghost predicate TwoSided(c: Contact) {
    c.proton.Some? && OnCardDAV(c)
  }

  // What an undisturbed visit leaves on CardDAV.
  ghost function LeftOnCardDAV(cfg: Config, c: Contact): Card
    requires TwoSided(c)
  {
    if Same(Merged(cfg, c), c.carddav.value) then c.carddav.value else Merged(cfg, c)
  }

  // Stopped when the update has reached Proton and no base is recorded.
  ghost function Unsaved(cfg: Config, c: Contact): Contact
    requires TwoSided(c)
  {
    c.(carddav := Some(LeftOnCardDAV(cfg, c)), proton := Some(cfg.norm(Merged(cfg, c))))
  }

  // Stopped when the bases are recorded: Proton's card as read back, or as it was before.
  ghost function Saved(cfg: Config, c: Contact, protonBase: Card): Contact
    requires TwoSided(c)
  {
    Unsaved(cfg, c).(base := Some(Bases(protonBase, Merged(cfg, c))))
  }

  ghost predicate UpdateResumes(cfg: Config, c: Contact)
    requires TwoSided(c)
  {
    && CardsStay(cfg, Unsaved(cfg, c))
    && CardsStay(cfg, Saved(cfg, c, cfg.norm(Merged(cfg, c))))
    && CardsStay(cfg, Saved(cfg, c, c.proton.value))
  }

  ghost function CreatedUnsaved(cfg: Config, c: Contact): Contact
    requires Waits(c)
  {
    c.(proton := Some(cfg.norm(c.carddav.value)))
  }

  ghost function CreatedSaved(cfg: Config, c: Contact): Contact
    requires Waits(c)
  {
    CreatedUnsaved(cfg, c).(base := Some(Bases(cfg.norm(c.carddav.value), c.carddav.value)))
  }

  // The contacts for which a disturbed visit can be resumed: the prefer-newer winner does
  // not flip, and at each later stopping point a rerun leaves both cards as they are.
  ghost predicate Resumable(cfg: Config, c: Contact) {
    && WellFormed(cfg, c)
    && (TwoSided(c) ==> !WinnerFlips(cfg.rev, cfg.policy, Versions4(c)) && (WroteProton(cfg, c) ==> UpdateResumes(cfg, c)))
    && (Waits(c) ==> CardsStay(cfg, CreatedUnsaved(cfg, c)) && CardsStay(cfg, CreatedSaved(cfg, c)))
  }

  // Replies that a disturbed visit may get: anything, except that a contact without a
  // base must not be missed by the index, nor have a base recorded for it unread.
  predicate Tolerable(c: Contact, out: Outcome) {
    && (c.base.None? && c.proton.Some? && OnCardDAV(c) ==> out.fetch)
    && (c.proton.None? ==> !UnreadCreate(out))
  }

  lemma StayNoFlip(cfg: Config, s: Contact)
    requires TwoSided(s) && CardsStay(cfg, s)
    ensures !WinnerFlips(cfg.rev, cfg.policy, Versions4(s))
  {
    assert Stands(cfg.rev, Versions4(s), Winner(cfg, s), REV);
  }

  // Where the cards stay, they also stay at every stopping point of the rerun.
  lemma StayIsResumable(cfg: Config, s: Contact)
    requires TwoSided(s) && WellFormed(cfg, s) && CardsStay(cfg, s)
    requires WroteProton(cfg, s) ==> CardsStay(cfg, s.(base := Some(Bases(s.proton.value, Merged(cfg, s)))))
    ensures Resumable(cfg, s)
  {
    var m, cd := Merged(cfg, s), s.carddav.value;
    StayNoFlip(cfg, s);
    CardsStayExactly(cfg, s);
    DiffersRespectsSame(m, cd, s.proton.value, ProtonBase(s));
    if WroteProton(cfg, s) {
      assert Unsaved(cfg, s) == s;
    }
  }

  lemma SettledIsResumable(cfg: Config, s: Contact)
    requires Settled(s) && WellFormed(cfg, s)
    ensures Resumable(cfg, s)
  {
    SettledStays(cfg, s);
    StayIsResumable(cfg, s);
  }

  // Recorded CardDAV bases that read the same make no difference.
  lemma StayIgnoresEqualBase(cfg: Config, s: Contact, protonBase: Card, a: Card, b: Card)
    requires TwoSided(s) && Same(a, b)
    requires CardsStay(cfg, s.(base := Some(Bases(protonBase, a))))
    ensures CardsStay(cfg, s.(base := Some(Bases(protonBase, b))))
  {
    var x, y := s.(base := Some(Bases(protonBase, a))), s.(base := Some(Bases(protonBase, b)));
    MergeIgnoresEqualBase(cfg.rev, Versions4(x), b, Winner(cfg, x));
    assert Versions4(x).(cb := b) == Versions4(y);
  }

  // A stopping point with the final cards, at which they stay: a rerun ends as an
  // undisturbed visit does, and can itself be disturbed.
  lemma StopResumes(cfg: Config, s: Contact, e: Contact)
    requires TwoSided(s) && WellFormed(cfg, s) && CardsStay(cfg, s)
    requires e.proton == s.proton && e.carddav == s.carddav && e.twin == s.twin
    requires e.base.Some? && e.base.value.proton == s.proton.value && Same(e.base.value.carddav, s.carddav.value)
    requires CardsStay(cfg, e)
    ensures Resumable(cfg, s) && SameState(CleanEnd(cfg, s), e)
  {
    RerunExactly(cfg, s, e);
    CardsStayExactly(cfg, s);
    SameTrans(e.base.value.carddav, s.carddav.value, Merged(cfg, s));
    assert e == s.(base := Some(Bases(s.proton.value, e.base.value.carddav)));
    StayIgnoresEqualBase(cfg, s, s.proton.value, e.base.value.carddav, Merged(cfg, s));
    StayIsResumable(cfg, s);
  }

  // ---- Disturbed visits -------------------------------------------------------------

  // Resuming after the merge reached CardDAV but nothing else happened.
  lemma ResumeAfterPut(cfg: Config, c: Contact)
    requires Resumable(cfg, c) && TwoSided(c)
    requires !Same(Merged(cfg, c), c.carddav.value)
    ensures var s := c.(carddav := Some(Merged(cfg, c)));
            Resumable(cfg, s) && OnCardDAV(s) && Merged(cfg, s) == Merged(cfg, c)
            && SameState(CleanEnd(cfg, s), CleanEnd(cfg, c))
  {
    var m := Merged(cfg, c);
    var s := c.(carddav := Some(m));
    MergedHasVersion(cfg, c);
    RetryAbsorbed(cfg.rev, cfg.policy, Versions4(c));
    assert Versions4(s) == Versions4(c).(cd := m);
    assert Merged(cfg, s) == m;
    assert Versions4(s).(cd := m) == Versions4(s);
    RetryAbsorbed(cfg.rev, cfg.policy, Versions4(s));
    assert Same(m, m);
    SameStops(cfg, c, s);
    CleanBoth(cfg, c);
    CleanBoth(cfg, s);
  }

  lemma SameStops(cfg: Config, c: Contact, s: Contact)
    requires TwoSided(c) && s == c.(carddav := Some(Merged(cfg, c))) && OnCardDAV(s)
    requires Merged(cfg, s) == Merged(cfg, c) && !Same(Merged(cfg, c), c.carddav.value) && Same(Merged(cfg, s), s.carddav.value)
    ensures WroteProton(cfg, s) == WroteProton(cfg, c)
    ensures UpdateResumes(cfg, s) == UpdateResumes(cfg, c)
  {
    assert Unsaved(cfg, s) == Unsaved(cfg, c);
    assert Saved(cfg, s, cfg.norm(Merged(cfg, s))) == Saved(cfg, c, cfg.norm(Merged(cfg, c)));
    assert Saved(cfg, s, s.proton.value) == Saved(cfg, c, c.proton.value);
  }

  // An undisturbed visit that writes Proton ends with the bases as read back.
  lemma CleanEndsSaved(cfg: Config, c: Contact)
    requires TwoSided(c)
    ensures WroteProton(cfg, c) ==> CleanEnd(cfg, c) == Saved(cfg, c, cfg.norm(Merged(cfg, c)))
    ensures !WroteProton(cfg, c) ==>
              CleanEnd(cfg, c) == c.(carddav := Some(LeftOnCardDAV(cfg, c)), base := Some(Bases(c.proton.value, Merged(cfg, c))))
    ensures Same(Merged(cfg, c), LeftOnCardDAV(cfg, c)) && Encodable(LeftOnCardDAV(cfg, c))
  {
    CleanBoth(cfg, c);
    MergedHasVersion(cfg, c);
    assert Same(Merged(cfg, c), Merged(cfg, c));
  }

  // Resuming after the update.
  lemma ResumeAfterUpdate(cfg: Config, c: Contact, s: Contact)
    requires Resumable(cfg, c) && TwoSided(c) && WroteProton(cfg, c)
    requires forall card :: Encodable(cfg.norm(card))
    requires || s == Unsaved(cfg, c)
             || s == Saved(cfg, c, cfg.norm(Merged(cfg, c)))
             || s == Saved(cfg, c, c.proton.value)
    ensures Resumable(cfg, s) && SameState(CleanEnd(cfg, s), CleanEnd(cfg, c))
  {
    CleanEndsSaved(cfg, c);
    StopResumes(cfg, s, CleanEnd(cfg, c));
  }

  // Resuming when Proton had nothing to be sent.
  lemma ResumeUnwritten(cfg: Config, c: Contact)
    requires TwoSided(c) && WellFormed(cfg, c) && !WroteProton(cfg, c)
    ensures var s := CleanEnd(cfg, c);
            Resumable(cfg, s) && SameState(CleanEnd(cfg, s), s)
  {
    var s, m := CleanEnd(cfg, c), Merged(cfg, c);
    CleanEndsSaved(cfg, c);
    DiffersShrinks(m, c.proton.value, ProtonBase(c));
    DiffersRespectsSame(m, s.carddav.value, c.proton.value, c.proton.value);
    SettledIsResumable(cfg, s);
    SettledStays(cfg, s);
    RerunExactly(cfg, s, s);
  }

  lemma ResumeTwoSided(cfg: Config, c: Contact, s: Contact)
    requires Resumable(cfg, c) && TwoSided(c) && StoppedAt(cfg, c, s)
    requires forall card :: Encodable(cfg.norm(card))
    ensures Resumable(cfg, s) && SameState(CleanEnd(cfg, s), CleanEnd(cfg, c))
  {
    SameStateRefl(CleanEnd(cfg, c));
    CleanEndsSaved(cfg, c);
    if s == c {
    } else if s == c.(carddav := Some(LeftOnCardDAV(cfg, c))) {
      ResumeAfterPut(cfg, c);
    } else if WroteProton(cfg, c) {
      ResumeAfterUpdate(cfg, c, s);
    } else {
      ResumeUnwritten(cfg, c);
    }
  }

  // A contact known to Proton only, or whose CardDAV card cannot be read.
  lemma ResumeCopy(cfg: Config, c: Contact, full: bool, out: Outcome)
    requires WellFormed(cfg, c) && c.proton.Some? && !OnCardDAV(c)
    ensures var s := VisitContact(cfg, c, full, out).contact;
            s == c || (Resumable(cfg, s) && SameState(CleanEnd(cfg, s), CleanEnd(cfg, c)))
  {
    var s, e := VisitContact(cfg, c, full, out).contact, CleanEnd(cfg, c);
    if s != c {
      assert s.carddav == c.proton == s.proton && !Differs(s.carddav.value, s.proton.value, ProtonBase(s));
      assert Same(c.proton.value, c.proton.value);
      SettledIsResumable(cfg, s);
      SettledStays(cfg, s);
      RerunExactly(cfg, s, e);
    }
  }

  // A contact known to CardDAV only.
  lemma ResumeCreate(cfg: Config, c: Contact, full: bool, out: Outcome)
    requires Resumable(cfg, c) && Tolerable(c, out) && c.proton.None?
    requires forall card :: Encodable(cfg.norm(card))
    ensures var s := VisitContact(cfg, c, full, out).contact;
            s == c || (Resumable(cfg, s) && SameState(CleanEnd(cfg, s), CleanEnd(cfg, c)))
  {
    var s := VisitContact(cfg, c, full, out).contact;
    if s != c {
      assert Waits(c) && (s == CreatedUnsaved(cfg, c) || s == CreatedSaved(cfg, c));
      assert CleanEnd(cfg, c) == CreatedSaved(cfg, c);
      assert Same(c.carddav.value, c.carddav.value);
      StopResumes(cfg, s, CleanEnd(cfg, c));
    }
  }

  // Crash recovery: whatever happened to a visit - a failed write, a lost reply, a kill
  // between two writes - a clean visit afterwards ends where an undisturbed one does.
  lemma InterruptedVisitRecovers(cfg: Config, c: Contact, full: bool, out: Outcome)
    requires Resumable(cfg, c) && Tolerable(c, out)
    requires forall card :: Encodable(cfg.norm(card))
    ensures var s := VisitContact(cfg, c, full, out).contact;
            Resumable(cfg, s) && SameState(CleanEnd(cfg, s), CleanEnd(cfg, c))
  {
    SameStateRefl(CleanEnd(cfg, c));
    if TwoSided(c) {
      if out.fetch {
        VisitBothStops(cfg, c, full, out);
        ResumeTwoSided(cfg, c, VisitContact(cfg, c, full, out).contact);
      }
    } else if c.proton.Some? {
      ResumeCopy(cfg, c, full, out);
    } else {
      ResumeCreate(cfg, c, full, out);
    }
  }

  // ---- Only those contacts ----------------------------------------------------------

  ghost predicate Recovers(cfg: Config, c: Contact, full: bool, out: Outcome) {
    SameState(CleanEnd(cfg, VisitContact(cfg, c, full, out).contact), CleanEnd(cfg, c))
  }

  // Where the winner flips, recovery fails: a run stopped right after the CardDAV put and
  // run again leaves another CardDAV card than an undisturbed run.
  lemma FlippedRetryDiverges(cfg: Config, c: Contact)
    requires TwoSided(c)
    requires WinnerFlips(cfg.rev, cfg.policy, Versions4(c))
    ensures var s := VisitContact(cfg, c, false, CLEAN.(put := Lost)).contact;
            && s == c.(carddav := Some(Merged(cfg, c)))
            && !SameState(VisitContact(cfg, s, false, CLEAN).contact, VisitContact(cfg, c, false, CLEAN).contact)
  {
    FlipWrites(cfg, c);
    FlipDiverges(cfg, c, c.(carddav := Some(Merged(cfg, c))));
  }

  lemma FlipWrites(cfg: Config, c: Contact)
    requires TwoSided(c)
    requires WinnerFlips(cfg.rev, cfg.policy, Versions4(c))
    ensures !Same(Merged(cfg, c), c.carddav.value) && Encodable(Merged(cfg, c))
  {
    var m, v := Merged(cfg, c), Versions4(c);
    MergeAt(cfg.rev, v, WinnerFor(cfg.rev, cfg.policy, v.pr, v.cd), REV);
    MergedHasVersion(cfg, c);
    assert |At(m, REV)| != |At(c.carddav.value, REV)|;
    assert !FieldsEqual(At(m, REV), At(c.carddav.value, REV));
  }

  lemma FlipDiverges(cfg: Config, c: Contact, s: Contact)
    requires TwoSided(c)
    requires WinnerFlips(cfg.rev, cfg.policy, Versions4(c))
    requires s == c.(carddav := Some(Merged(cfg, c))) && OnCardDAV(s) && !Same(Merged(cfg, c), c.carddav.value)
    ensures VisitContact(cfg, s, false, CLEAN).contact.carddav != VisitContact(cfg, c, false, CLEAN).contact.carddav
  {
    var m, v := Merged(cfg, c), Versions4(c);
    assert Versions4(s) == v.(cd := m);
    var name := FlippedName(cfg.rev, cfg.policy, v);
    CleanBoth(cfg, c);
    CleanBoth(cfg, s);
    var again := VisitContact(cfg, s, false, CLEAN).contact.carddav.value;
    assert FieldsEqual(At(Merged(cfg, s), name), At(again, name));
  }

  // Each later stopping point is reached by one lost or failed reply.
  lemma UpdateStops(cfg: Config, c: Contact)
    requires TwoSided(c) && WroteProton(cfg, c)
    ensures VisitContact(cfg, c, false, CLEAN.(update := Lost)).contact == Unsaved(cfg, c)
    ensures VisitContact(cfg, c, false, CLEAN.(save := Lost)).contact == Saved(cfg, c, cfg.norm(Merged(cfg, c)))
    ensures VisitContact(cfg, c, false, CLEAN.(updateReread := false)).contact == Saved(cfg, c, c.proton.value)
  {
  }

  lemma UpdateRecoversExactly(cfg: Config, c: Contact)
    requires TwoSided(c) && WroteProton(cfg, c)
    ensures Recovers(cfg, c, false, CLEAN.(update := Lost)) <==> CardsStay(cfg, Unsaved(cfg, c))
    ensures Recovers(cfg, c, false, CLEAN.(save := Lost)) <==> CardsStay(cfg, Saved(cfg, c, cfg.norm(Merged(cfg, c))))
    ensures Recovers(cfg, c, false, CLEAN.(updateReread := false)) <==> CardsStay(cfg, Saved(cfg, c, c.proton.value))
  {
    UpdateStops(cfg, c);
    CleanEndsSaved(cfg, c);
    RerunExactly(cfg, Unsaved(cfg, c), CleanEnd(cfg, c));
    RerunExactly(cfg, Saved(cfg, c, cfg.norm(Merged(cfg, c))), CleanEnd(cfg, c));
    RerunExactly(cfg, Saved(cfg, c, c.proton.value), CleanEnd(cfg, c));
  }

  lemma CreateStops(cfg: Config, c: Contact)
    requires Waits(c)
    ensures VisitContact(cfg, c, false, CLEAN.(create := Lost)).contact == CreatedUnsaved(cfg, c)
    ensures VisitContact(cfg, c, false, CLEAN.(save := Lost)).contact == CreatedSaved(cfg, c)
    ensures CleanEnd(cfg, c) == CreatedSaved(cfg, c)
  {
  }

  lemma CreateRecoversExactly(cfg: Config, c: Contact)
    requires Waits(c)
    ensures Recovers(cfg, c, false, CLEAN.(create := Lost)) <==> CardsStay(cfg, CreatedUnsaved(cfg, c))
    ensures Recovers(cfg, c, false, CLEAN.(save := Lost)) <==> CardsStay(cfg, CreatedSaved(cfg, c))
  {
    CreateStops(cfg, c);
    assert Same(c.carddav.value, c.carddav.value);
    RerunExactly(cfg, CreatedUnsaved(cfg, c), CleanEnd(cfg, c));
    RerunExactly(cfg, CreatedSaved(cfg, c), CleanEnd(cfg, c));
  }

  // A contact that is not resumable has a tolerable disturbance that it does not recover from.
  lemma FailingReply(cfg: Config, c: Contact) returns (out: Outcome)
    requires WellFormed(cfg, c) && !Resumable(cfg, c)
    ensures Tolerable(c, out) && !Recovers(cfg, c, false, out)
  {
    if TwoSided(c) {
      if WinnerFlips(cfg.rev, cfg.policy, Versions4(c)) {
        FlippedRetryDiverges(cfg, c);
        out := CLEAN.(put := Lost);
      } else {
        UpdateRecoversExactly(cfg, c);
        out := if !CardsStay(cfg, Unsaved(cfg, c)) then CLEAN.(update := Lost)
               else if !CardsStay(cfg, Saved(cfg, c, c.proton.value)) then CLEAN.(updateReread := false)
               else CLEAN.(save := Lost);
      }
    } else {
      CreateRecoversExactly(cfg, c);
      out := if !CardsStay(cfg, CreatedUnsaved(cfg, c)) then CLEAN.(create := Lost) else CLEAN.(save := Lost);
    }
  }

  // Recovery is guaranteed after every tolerable disturbance exactly for the resumable
  // contacts, for every Proton store.
  lemma RecoveryExactly(cfg: Config, c: Contact)
    requires WellFormed(cfg, c) && forall card :: Encodable(cfg.norm(card))
    ensures Resumable(cfg, c) <==> forall full, out :: Tolerable(c, out) ==> Recovers(cfg, c, full, out)
  {
    if Resumable(cfg, c) {
      forall full, out | Tolerable(c, out) ensures Recovers(cfg, c, full, out) {
        InterruptedVisitRecovers(cfg, c, full, out);
      }
    } else {
      var out := FailingReply(cfg, c);
    }
  }

  // ---- One property at a time -------------------------------------------------------

  // What a rerun after the given stop leaves of one CardDAV property.
  ghost predicate PropertyRecovers(cfg: Config, c: Contact, out: Outcome, name: string) {
    FieldsEqual(At(CardDAVCard(CleanEnd(cfg, VisitContact(cfg, c, false, out).contact)), name),
                At(CardDAVCard(CleanEnd(cfg, c)), name))
  }

  lemma StopKeepsExactly(cfg: Config, s: Contact, name: string)
    requires TwoSided(s)
    ensures FieldsEqual(At(CardDAVCard(CleanEnd(cfg, s)), name), At(s.carddav.value, name)) <==>
            Stands(cfg.rev, Versions4(s), Winner(cfg, s), name)
  {
    CleanBoth(cfg, s);
    StandsExactly(cfg.rev, Versions4(s), Winner(cfg, s), name);
    assert FieldsEqual(At(Merged(cfg, s), name), At(CardDAVCard(CleanEnd(cfg, s)), name));
  }

  // After an update whose reply was lost, or whose bases were not recorded: q is Proton's
  // return, cd what the undisturbed visit leaves on CardDAV.
  lemma LostUpdateExactly(cfg: Config, c: Contact, name: string)
    requires TwoSided(c) && WroteProton(cfg, c) && Mergeable(name)
    ensures var q, cd := At(cfg.norm(Merged(cfg, c)), name), At(LeftOnCardDAV(cfg, c), name);
            var pb, cb := At(ProtonBase(c), name), At(CardDAVBase(c), name);
            PropertyRecovers(cfg, c, CLEAN.(update := Lost), name) <==>
            || FieldsEqual(q, cd)
            || (FieldsEqual(pb, q) && !(FieldsEqual(cb, cd) && cd == []))
            || (!FieldsEqual(pb, q) && !FieldsEqual(cb, cd) && Winner(cfg, Unsaved(cfg, c)) == SideCardDAV)
  {
    UpdateStops(cfg, c);
    CleanEndsSaved(cfg, c);
    StopKeepsExactly(cfg, Unsaved(cfg, c), name);
  }

  // After the bases were recorded: lost only where Proton added to what CardDAV lacks.
  lemma SavedExactly(cfg: Config, c: Contact, name: string)
    requires TwoSided(c) && WroteProton(cfg, c) && Mergeable(name)
    ensures var q, cd := At(cfg.norm(Merged(cfg, c)), name), At(LeftOnCardDAV(cfg, c), name);
            PropertyRecovers(cfg, c, CLEAN.(save := Lost), name) <==> cd != [] || q == []
  {
    UpdateStops(cfg, c);
    CleanEndsSaved(cfg, c);
    StopKeepsExactly(cfg, Saved(cfg, c, cfg.norm(Merged(cfg, c))), name);
    assert FieldsEqual(At(Merged(cfg, c), name), At(LeftOnCardDAV(cfg, c), name));
  }

  // After an update that was not read back: kept only if Proton returned the property as
  // CardDAV has it, or as Proton had it before.
  lemma StaleBaseExactly(cfg: Config, c: Contact, name: string)
    requires TwoSided(c) && WroteProton(cfg, c) && Mergeable(name)
    ensures var q, cd := At(cfg.norm(Merged(cfg, c)), name), At(LeftOnCardDAV(cfg, c), name);
            PropertyRecovers(cfg, c, CLEAN.(updateReread := false), name) <==>
            FieldsEqual(q, cd) || (FieldsEqual(At(c.proton.value, name), q) && cd != [])
  {
    UpdateStops(cfg, c);
    CleanEndsSaved(cfg, c);
    StopKeepsExactly(cfg, Saved(cfg, c, c.proton.value), name);
    assert FieldsEqual(At(Merged(cfg, c), name), At(LeftOnCardDAV(cfg, c), name));
  }

  // ---- A sufficient condition -------------------------------------------------------

  // What Proton would return for `card` agrees with it on everything it keeps and on
  // everything it had before.
  ghost predicate Lands(cfg: Config, card: Card, before: Card, base: Card) {
    && !Differs(card, cfg.norm(card), base)
    && !Differs(card, cfg.norm(card), before)
  }

  // Everything a clean visit sends lands.
  ghost predicate SendsLand(cfg: Config, c: Contact) {
    && (TwoSided(c) && WroteProton(cfg, c) ==> Lands(cfg, Merged(cfg, c), c.proton.value, ProtonBase(c)))
    && (Waits(c) ==> Faithful(cfg, c.carddav.value))
  }

  lemma LandedStays(cfg: Config, s: Contact)
    requires TwoSided(s) && !Differs(s.carddav.value, s.proton.value, ProtonBase(s))
    ensures CardsStay(cfg, s)
  {
    SettledStays(cfg, s);
  }

  lemma LandedUpdateResumes(cfg: Config, c: Contact)
    requires TwoSided(c) && WroteProton(cfg, c) && Lands(cfg, Merged(cfg, c), c.proton.value, ProtonBase(c))
    ensures UpdateResumes(cfg, c)
  {
    var m, cd := Merged(cfg, c), LeftOnCardDAV(cfg, c);
    var q := cfg.norm(m);
    CleanEndsSaved(cfg, c);
    DiffersShrinks(m, q, ProtonBase(c));
    DiffersRespectsSame(m, cd, q, ProtonBase(c));
    DiffersRespectsSame(m, cd, q, c.proton.value);
    DiffersRespectsSame(m, cd, q, q);
    LandedStays(cfg, Unsaved(cfg, c));
    LandedStays(cfg, Saved(cfg, c, q));
    LandedStays(cfg, Saved(cfg, c, c.proton.value));
  }

  lemma LandedIsResumable(cfg: Config, c: Contact)
    requires WellFormed(cfg, c) && SendsLand(cfg, c)
    ensures Resumable(cfg, c) <==> (TwoSided(c) ==> !WinnerFlips(cfg.rev, cfg.policy, Versions4(c)))
  {
    if TwoSided(c) && WroteProton(cfg, c) {
      LandedUpdateResumes(cfg, c);
    }
    if Waits(c) {
      var cd := c.carddav.value;
      DiffersOwnBase(cd, cfg.norm(cd));
      LandedStays(cfg, CreatedUnsaved(cfg, c));
      LandedStays(cfg, CreatedSaved(cfg, c));
    }
  }

  // ---- Create once ------------------------------------------------------------------

  // Create-once across a crash: when a create went through but no base was recorded, the
  // next clean visit takes the two-sided branch with empty bases. It issues no put, create
  // or update exactly when Proton returned the card faithfully, and then records the bases
  // that the first visit would have recorded.
  lemma CrashAfterCreate(cfg: Config, c: Contact, out: Outcome)
    requires c.proton.None? && OnCardDAV(c) && c.base.None?
    requires out.lookup && Took(out.create) && (out.create == Done ==> out.save == Refused)
    ensures var s := VisitContact(cfg, c, false, out).contact;
            var v := VisitContact(cfg, s, false, CLEAN);
            && s.base.None? && s.proton == Some(cfg.norm(c.carddav.value))
            && (Quiet(v.effects) <==> Faithful(cfg, c.carddav.value))
            && (Quiet(v.effects) ==> SameState(v.contact, VisitContact(cfg, c, false, CLEAN).contact))
  {
    var cd := c.carddav.value;
    var s := VisitContact(cfg, c, false, out).contact;
    assert s == c.(proton := Some(cfg.norm(cd)));
    QuietBothExact(cfg, s);
    if !Differs(cd, cfg.norm(cd), NO_CARD) {
      SettledStays(cfg, s);
      assert Same(cd, cd);
      RerunExactly(cfg, s, CleanEnd(cfg, c));
    }
  }

  lemma QuietBothExact(cfg: Config, c: Contact)
    requires c.proton.Some? && OnCardDAV(c)
    ensures Quiet(VisitContact(cfg, c, false, CLEAN).effects) <==> !Differs(c.carddav.value, c.proton.value, ProtonBase(c))
  {
    NothingToWriteExact(cfg.rev, Versions4(c), WinnerFor(cfg.rev, cfg.policy, c.proton.value, c.carddav.value));
    CleanBothSends(cfg, c);
  }
}
