// Apple labels across a merge. An email and its label are separate properties tied by a
// vCard group; the merge picks each property on its own and ignores groups.
module MergedLabels {
  import opened Vcard
  import opened FieldEquality
  import opened ThreeWayMerge
  import opened CardSplit
  import opened CardNormal
  import opened SyncModel
  import opened ContactLaws
  import opened NormalisingProton

  // The label that a card gives to a group.
  function LabelIn(card: Card, group: string): string {
    LabelOf(LabelsOf(At(card, AB_LABEL)), group)
  }

  // The side whose value of a property the merge keeps.
  ghost function PickedSide(v: Versions, winner: Side, name: string): Side {
    var pb, cb, pr, cd := At(v.pb, name), At(v.cb, name), At(v.pr, name), At(v.cd, name);
    if FieldsEqual(pb, pr) then
      if FieldsEqual(cb, cd) && cd == [] then SideProton else SideCardDAV
    else if FieldsEqual(cb, cd) || FieldsEqual(pr, cd) then SideProton
    else winner
  }

  function CardOf(v: Versions, side: Side): Card {
    if side == SideProton then v.pr else v.cd
  }

  lemma MergePicks(rev: RevParser, v: Versions, winner: Side, name: string)
    requires Mergeable(name)
    ensures At(Merge(rev, v, winner), name) == At(CardOf(v, PickedSide(v, winner, name)), name)
  {
    MergeAt(rev, v, winner, name);
  }

  // Every merged email has the label that it had on the side it comes from.
  ghost predicate LabelsKept(merged: Card, source: Card) {
    forall f | f in At(merged, EMAIL) :: LabelIn(merged, f.group) == LabelIn(source, f.group)
  }

  // Labels are kept exactly when the emails and the labels come from the same side, or the
  // two sides label the groups of those emails alike.
  lemma LabelsKeptExactly(rev: RevParser, v: Versions, winner: Side)
    ensures var emails, labels := PickedSide(v, winner, EMAIL), PickedSide(v, winner, AB_LABEL);
            LabelsKept(Merge(rev, v, winner), CardOf(v, emails)) <==>
            || emails == labels
            || forall f | f in At(CardOf(v, emails), EMAIL) :: LabelIn(v.pr, f.group) == LabelIn(v.cd, f.group)
  {
    MergePicks(rev, v, winner, EMAIL);
    MergePicks(rev, v, winner, AB_LABEL);
  }

  // What Proton is then sent: each email typed by its own label, or with its own TYPE.
  lemma KeptLabelsAreSent(rev: RevParser, v: Versions, winner: Side, i: nat)
    requires LabelsKept(Merge(rev, v, winner), CardOf(v, PickedSide(v, winner, EMAIL)))
    requires i < |At(Merge(rev, v, winner), EMAIL)|
    ensures var m, source := Merge(rev, v, winner), CardOf(v, PickedSide(v, winner, EMAIL));
            && At(m, EMAIL) == At(source, EMAIL) && |At(RoundTrip(m), EMAIL)| == |At(m, EMAIL)|
            && var f := At(source, EMAIL)[i];
               At(RoundTrip(m), EMAIL)[i].(group := "") == Retyped(f, LabelIn(source, f.group)).(group := "")
  {
    var m := Merge(rev, v, winner);
    MergePicks(rev, v, winner, EMAIL);
    RoundTripAt(m, EMAIL);
    AllocateKeeps(LabelsOf(At(m, AB_LABEL)), NonEmailGroups(m), At(m, EMAIL), i);
  }

  // ---- The counterexample -----------------------------------------------------------

  const TEL := "TEL"

  function Named(uid: string, name: string, home: string): Card {
    map[VERSION := [Plain("4.0")], UID := [Plain(uid)], FN := [Plain(name)], TEL := [Plain(home)]]
  }

  // A synchronised contact with one phone. Its Proton user adds an email and its CardDAV
  // user a labelled phone, and both put what they add into group item1.
  function BothAdd(uid: string, name: string, home: string, mail: string, tel: string, text: string): Contact {
    var base := Named(uid, name, home);
    Contact(Some(base[EMAIL := [Field(mail, map[], "item1")]]),
            Some(base[TEL := [Plain(home), Field(tel, map[], "item1")]][AB_LABEL := [Field(text, map[], "item1")]]),
            Some(Bases(base, base)), false)
  }

  lemma BothAddMerged(cfg: Config, uid: string, name: string, home: string, mail: string, tel: string, text: string)
    ensures var c := BothAdd(uid, name, home, mail, tel, text);
            && OnCardDAV(c) && WroteProton(cfg, c) && At(ProtonCard(c), AB_LABEL) == []
            && At(Merged(cfg, c), EMAIL) == [Field(mail, map[], "item1")]
            && At(Merged(cfg, c), TEL) == [Plain(home), Field(tel, map[], "item1")]
            && At(Merged(cfg, c), AB_LABEL) == [Field(text, map[], "item1")]
  {
    var c := BothAdd(uid, name, home, mail, tel, text);
    var v := Versions4(c);
    var w := WinnerFor(cfg.rev, cfg.policy, v.pr, v.cd);
    assert At(v.pb, TEL) == [Plain(home)] == At(v.pr, TEL) && |At(v.cd, TEL)| == 2;
    assert At(v.pb, EMAIL) == [] == At(v.cb, EMAIL) == At(v.cd, EMAIL) && |At(v.pr, EMAIL)| == 1;
    assert At(v.pb, AB_LABEL) == [] == At(v.cb, AB_LABEL) == At(v.pr, AB_LABEL) && |At(v.cd, AB_LABEL)| == 1;
    MergePicks(cfg.rev, v, w, EMAIL);
    MergePicks(cfg.rev, v, w, TEL);
    MergePicks(cfg.rev, v, w, AB_LABEL);
    assert TEL in v.pr.Keys + v.pb.Keys;
    assert |At(Merged(cfg, c), TEL)| != |At(v.pr, TEL)|;
  }

  // One clean run: on Proton the email, which had no label, is typed by the phone's, and
  // the phone has lost it.
  lemma LabelCrosses(cfg: Config, modelled: set<string>, uid: string, name: string, home: string, mail: string, tel: string, text: string)
    requires Normalises(cfg, modelled) && EMAIL in modelled && TEL in modelled && DecodeLabel(text) != ""
    ensures var c := BothAdd(uid, name, home, mail, tel, text);
            var c' := VisitContact(cfg, c, false, CLEAN).contact;
            && At(ProtonCard(c), AB_LABEL) == []
            && |At(ProtonCard(c'), EMAIL)| == 1
            && At(ProtonCard(c'), EMAIL)[0].params == map[TYPE := [DecodeLabel(text)]]
            && At(ProtonCard(c'), TEL) == [Plain(home), Field(tel, map[], "item1")]
            && At(ProtonCard(c'), AB_LABEL) == []
  {
    var c := BothAdd(uid, name, home, mail, tel, text);
    BothAddMerged(cfg, uid, name, home, mail, tel, text);
    var m := Merged(cfg, c);
    ProtonAfter(cfg, c);
    CrossedTrip(m, mail, text);
    RoundTripAt(m, TEL);
    forall p | p == EMAIL || p == TEL || p == AB_LABEL
      ensures At(cfg.norm(m), p) == if p in modelled then At(RoundTrip(m), p) else []
    {
      NormalisedAt(cfg, modelled, m, p);
    }
  }

  lemma ProtonAfter(cfg: Config, c: Contact)
    requires c.proton.Some? && OnCardDAV(c) && WroteProton(cfg, c)
    ensures ProtonCard(VisitContact(cfg, c, false, CLEAN).contact) == cfg.norm(Merged(cfg, c))
  {
    CleanBoth(cfg, c);
  }

  lemma CrossedTrip(m: Card, mail: string, text: string)
    requires At(m, EMAIL) == [Field(mail, map[], "item1")] && At(m, AB_LABEL) == [Field(text, map[], "item1")]
    requires DecodeLabel(text) != ""
    ensures |At(RoundTrip(m), EMAIL)| == 1 && At(RoundTrip(m), EMAIL)[0].params == map[TYPE := [DecodeLabel(text)]]
    ensures At(RoundTrip(m), AB_LABEL) == []
  {
    var labels, others, emails := LabelsOf(At(m, AB_LABEL)), NonEmailGroups(m), At(m, EMAIL);
    assert text != "";
    assert At(m, AB_LABEL)[..0] == [];
    assert LabelOf(labels, "item1") == DecodeLabel(text);
    RoundTripAt(m, EMAIL);
    RoundTripAt(m, AB_LABEL);
    AllocateKeeps(labels, others, emails, 0);
    ConsumedExact(labels, others, emails, "item1");
    assert emails[0].group == "item1";
    WithoutExact(At(m, AB_LABEL), Emails(m).consumed, Field(text, map[], "item1"));
    assert WithoutGroups(At(m, AB_LABEL), Emails(m).consumed) == [] by {
      assert At(m, AB_LABEL)[|At(m, AB_LABEL)| - 1].group in Emails(m).consumed;
    }
  }
}
