// A disturbed run that a rerun does not repair, on an ordinary contact.
module FailedRecovery {
  import opened Vcard
  import opened FieldEquality
  import opened ThreeWayMerge
  import opened CardNormal
  import opened SyncModel
  import opened ContactLaws
  import opened Recovery
  import opened NormalisingProton
  import opened Churn

  function Person(uid: string, name: string): Card {
    map[VERSION := [Plain("4.0")], UID := [Plain(uid)], FN := [Plain(name)]]
  }

  // A synchronised contact whose email is typed INTERNET on CardDAV, as Apple clients
  // write it, and untyped on Proton; its CardDAV user has just changed the address.
  function Readdressed(uid: string, name: string, before: string, after: string): Contact {
    var kept := Person(uid, name)[EMAIL := [Field(before, map[], "item1")]];
    Contact(Some(kept), Some(Person(uid, name)[EMAIL := [InternetEmail(after, "")]]),
            Some(Bases(kept, Person(uid, name)[EMAIL := [InternetEmail(before, "")]])), false)
  }

  // What matters about it.
  ghost predicate AddressChanged(c: Contact, before: string, after: string) {
    && TwoSided(c) && c.base.Some? && EMAIL in c.proton.value
    && At(c.proton.value, EMAIL) == [Field(before, map[], "item1")] == At(ProtonBase(c), EMAIL)
    && At(CardDAVBase(c), EMAIL) == [InternetEmail(before, "")] && At(c.carddav.value, EMAIL) == [InternetEmail(after, "")]
    && At(c.proton.value, AB_LABEL) == [] == At(c.carddav.value, AB_LABEL)
    && At(c.proton.value, REV) == [] == At(c.carddav.value, REV)
  }

  lemma ReaddressedChanged(uid: string, name: string, before: string, after: string)
    ensures AddressChanged(Readdressed(uid, name, before, after), before, after)
  {
  }

  lemma ValuesSeen(e: Field, f: Field)
    requires Separable(e) && Separable(f) && e.value != f.value
    ensures !FieldsEqual([e], [f]) && !FieldsEqual([f], [e])
  {
    KeyIdentifies(e, f);
    assert Keys([e]) == [Key(e)] && Keys([f]) == [Key(f)];
    assert Key(e) in KeyBag([e]);
  }

  lemma ChangedMerge(cfg: Config, c: Contact, before: string, after: string)
    requires AddressChanged(c, before, after) && before != after && NUL !in before && NUL !in after
    ensures WroteProton(cfg, c)
    ensures At(Merged(cfg, c), EMAIL) == [InternetEmail(after, "")]
    ensures At(Merged(cfg, c), AB_LABEL) == [] && At(Merged(cfg, c), REV) == []
  {
    var v := Versions4(c);
    ValuesSeen(InternetEmail(before, ""), InternetEmail(after, ""));
    ValuesSeen(InternetEmail(after, ""), Field(before, map[], "item1"));
    MergeAt(cfg.rev, v, Winner(cfg, c), EMAIL);
    MergeAt(cfg.rev, v, Winner(cfg, c), AB_LABEL);
    MergeAt(cfg.rev, v, Winner(cfg, c), REV);
    assert EMAIL in v.pr.Keys + v.pb.Keys;
  }

  lemma ChangedLeft(cfg: Config, c: Contact, before: string, after: string)
    requires AddressChanged(c, before, after) && before != after && NUL !in before && NUL !in after
    ensures At(LeftOnCardDAV(cfg, c), EMAIL) == [InternetEmail(after, "")] && At(LeftOnCardDAV(cfg, c), REV) == []
  {
    ChangedMerge(cfg, c, before, after);
  }

  lemma ReturnDiffers(before: string, after: string, g: string)
    requires before != after && NUL !in before && NUL !in after
    ensures var q := [Field(after, map[], g)];
            && !FieldsEqual(q, [InternetEmail(after, "")])
            && !FieldsEqual([Field(before, map[], "item1")], q)
            && !FieldsEqual([InternetEmail(before, "")], [InternetEmail(after, "")])
  {
    TypeIsSeen(after, "", g);
    ValuesSeen(Field(before, map[], "item1"), Field(after, map[], g));
    ValuesSeen(InternetEmail(before, ""), InternetEmail(after, ""));
  }

  lemma ProtonWinsRerun(cfg: Config, modelled: set<string>, c: Contact, before: string, after: string)
    requires Normalises(cfg, modelled) && cfg.policy != PreferCardDAV
    requires AddressChanged(c, before, after) && before != after && NUL !in before && NUL !in after
    ensures Winner(cfg, Unsaved(cfg, c)) == SideProton
  {
    ChangedMerge(cfg, c, before, after);
    ChangedLeft(cfg, c, before, after);
    NormalisedAt(cfg, modelled, Merged(cfg, c), REV);
    RoundTripAt(Merged(cfg, c), REV);
  }

  // When the reply to the update is lost, the rerun takes what Proton made of the address
  // for an edit on Proton and strips the type from CardDAV, which an undisturbed run keeps.
  lemma NormalisationReadAsEdit(cfg: Config, modelled: set<string>, c: Contact, before: string, after: string)
    requires Normalises(cfg, modelled) && EMAIL in modelled && cfg.policy != PreferCardDAV
    requires AddressChanged(c, before, after) && before != after && NUL !in before && NUL !in after
    ensures At(CardDAVCard(CleanEnd(cfg, c)), EMAIL) == [InternetEmail(after, "")]
    ensures !PropertyRecovers(cfg, c, CLEAN.(update := Lost), EMAIL) && !Resumable(cfg, c)
  {
    var m := Merged(cfg, c);
    ChangedMerge(cfg, c, before, after);
    ChangedLeft(cfg, c, before, after);
    UntaggedReturn(cfg, modelled, m, after, "");
    var g :| At(cfg.norm(m), EMAIL) == [Field(after, map[], g)];
    ReturnDiffers(before, after, g);
    ProtonWinsRerun(cfg, modelled, c, before, after);
    LostUpdateExactly(cfg, c, EMAIL);
    LosingProperty(cfg, c, EMAIL);
  }

  lemma LosingProperty(cfg: Config, c: Contact, name: string)
    requires TwoSided(c) && WroteProton(cfg, c)
    requires !PropertyRecovers(cfg, c, CLEAN.(update := Lost), name)
    ensures !Resumable(cfg, c) && CardDAVCard(CleanEnd(cfg, c)) == LeftOnCardDAV(cfg, c)
  {
    UpdateRecoversExactly(cfg, c);
    CleanEndsSaved(cfg, c);
    assert Recovers(cfg, c, false, CLEAN.(update := Lost)) ==> PropertyRecovers(cfg, c, CLEAN.(update := Lost), name);
  }
}
