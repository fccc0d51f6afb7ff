// Users edit a contact at rest, on one side or on both: what the next clean run makes of
// it, and that disturbed runs in between do not matter.
module EditsArrive {
  import opened Vcard
  import opened FieldEquality
  import opened ThreeWayMerge
  import opened MergeLaws
  import opened SyncModel
  import opened ContactLaws
  import opened Recovery
  import opened AddressBook
  import opened Quiescence
  import opened Interruptions

  // The contact with the cards its users have left on Proton and on CardDAV.
  function Edited(c: Contact, ep: Card, ec: Card): Contact {
    c.(proton := Some(ep), carddav := Some(ec))
  }

  ghost predicate Changed(before: Card, after: Card, name: string) {
    !FieldsEqual(At(before, name), At(after, name))
  }

  // The user's intent for one property: the side that changed it, deletions included; if
  // both did, the policy's winner.
  ghost function Intended(cfg: Config, c: Contact, ep: Card, ec: Card, name: string): seq<Field> {
    if Changed(ProtonCard(c), ep, name) &&
       (!Changed(CardDAVCard(c), ec, name) || WinnerFor(cfg.rev, cfg.policy, ep, ec) == SideProton)
    then At(ep, name) else At(ec, name)
  }

  lemma MergeIntends(cfg: Config, c: Contact, ep: Card, ec: Card, name: string)
    requires TwoSided(c) && AtRest(c) && Mergeable(name)
    ensures FieldsEqual(At(Merged(cfg, Edited(c, ep, ec)), name), Intended(cfg, c, ep, ec, name))
  {
    var pr, cd, cb := c.proton.value, c.carddav.value, c.base.value.carddav;
    var v := Versions4(Edited(c, ep, ec));
    MergeAt(cfg.rev, v, WinnerFor(cfg.rev, cfg.policy, ep, ec), name);
    AgreedAt(Versions(pr, cb, pr, cd), name);
    assert FieldsEqual(At(cb, name), At(cd, name));
  }

  // Every edit of a mergeable property reaches CardDAV.
  lemma EditsReachCardDAV(cfg: Config, c: Contact, ep: Card, ec: Card, name: string)
    requires TwoSided(c) && AtRest(c) && Encodable(ec) && Mergeable(name)
    ensures var c' := VisitContact(cfg, Edited(c, ep, ec), false, CLEAN).contact;
            FieldsEqual(At(CardDAVCard(c'), name), Intended(cfg, c, ep, ec, name))
  {
    var e := Edited(c, ep, ec);
    MergeIntends(cfg, c, ep, ec, name);
    CleanBoth(cfg, e);
    assert FieldsEqual(At(Merged(cfg, e), name), At(CardDAVCard(VisitContact(cfg, e, false, CLEAN).contact), name));
  }

  // An edit that Proton lacks of a property that Proton has, or had, is sent to Proton.
  lemma EditsAreSent(cfg: Config, c: Contact, ep: Card, ec: Card, name: string)
    requires TwoSided(c) && AtRest(c) && Encodable(ec) && Mergeable(name)
    requires name in ep || name in c.proton.value
    requires !FieldsEqual(Intended(cfg, c, ep, ec, name), At(ep, name))
    ensures var e := Edited(c, ep, ec);
            && Update(Merged(cfg, e), Done) in VisitContact(cfg, e, false, CLEAN).effects
            && FieldsEqual(At(Merged(cfg, e), name), Intended(cfg, c, ep, ec, name))
  {
    var e := Edited(c, ep, ec);
    MergeIntends(cfg, c, ep, ec, name);
    assert name in ep.Keys + ProtonBase(e).Keys;
    assert WroteProton(cfg, e);
    CleanBoth(cfg, e);
    var u := [Update(Merged(cfg, e), Done)];
    assert u[0] in u;
  }

  // If Proton keeps what it is sent, both sides then show the edit.
  lemma EditsReachBothSides(cfg: Config, c: Contact, ep: Card, ec: Card, name: string)
    requires TwoSided(c) && AtRest(c) && Encodable(ec) && Mergeable(name)
    requires SendsLand(cfg, Edited(c, ep, ec))
    requires name in ep || name in c.proton.value
    ensures var c' := VisitContact(cfg, Edited(c, ep, ec), false, CLEAN).contact;
            && FieldsEqual(At(CardDAVCard(c'), name), Intended(cfg, c, ep, ec, name))
            && FieldsEqual(At(ProtonCard(c'), name), Intended(cfg, c, ep, ec, name))
  {
    var e := Edited(c, ep, ec);
    var m := Merged(cfg, e);
    EditsReachCardDAV(cfg, c, ep, ec, name);
    MergeIntends(cfg, c, ep, ec, name);
    CleanBoth(cfg, e);
    assert name in ep.Keys + ProtonBase(e).Keys;
    if WroteProton(cfg, e) {
      assert name in cfg.norm(m).Keys + ep.Keys || name in cfg.norm(m).Keys + ProtonBase(e).Keys;
      assert FieldsEqual(At(m, name), At(cfg.norm(m), name));
    } else {
      assert FieldsEqual(At(m, name), At(ep, name));
    }
  }

  function EditedBook(w: World, uid: string, ep: Card, ec: Card): World {
    w.(proton := w.proton[uid := ep], carddav := w.carddav[uid := ec])
  }

  // Whatever disturbed passes come between the edits and a clean pass, the edits arrive on
  // CardDAV and, for what Proton has or had and keeps, on Proton.
  lemma EditsSurviveDisturbance(cfg: Config, w: World, uid: string, ep: Card, ec: Card, name: string,
                                attempts: seq<Attempt>, late: seq<string>)
    requires TwoSided(Look(w, uid)) && AtRest(Look(w, uid)) && Encodable(ec) && Mergeable(name)
    requires var w1 := EditedBook(w, uid, ep, ec);
             && AllResumable(cfg, w1) && AllTolerable(cfg, w1, attempts)
             && Complete(AfterAttempts(cfg, w1, attempts), CleanEnv(), late)
             && Reconciled(cfg, AfterAttempts(cfg, w1, attempts), late, CleanEnv()).deferred == 0
    ensures var w1 := EditedBook(w, uid, ep, ec);
            var c' := Look(Reconciled(cfg, AfterAttempts(cfg, w1, attempts), late, CleanEnv()).world, uid);
            var intended := Intended(cfg, Look(w, uid), ep, ec, name);
            && FieldsEqual(At(CardDAVCard(c'), name), intended)
            && (SendsLand(cfg, Edited(Look(w, uid), ep, ec)) && (name in ep || name in ProtonCard(Look(w, uid))) ==>
                  FieldsEqual(At(ProtonCard(c'), name), intended))
  {
    var w1, c := EditedBook(w, uid, ep, ec), Look(w, uid);
    assert Look(w1, uid) == Edited(c, ep, ec);
    AttemptsPreserveResult(cfg, w1, attempts, uid);
    CleanPassAt(cfg, AfterAttempts(cfg, w1, attempts), late, uid);
    EditsReachCardDAV(cfg, c, ep, ec, name);
    if SendsLand(cfg, Edited(c, ep, ec)) && (name in ep || name in ProtonCard(c)) {
      EditsReachBothSides(cfg, c, ep, ec, name);
    }
  }
}
