// What splitting a card and merging the parts again does to it.
module CardNormal {
  import opened Sequences
  import opened Strings
  import opened Vcard
  import opened FieldEquality
  import opened CardSplit

  // ---- Round trip -------------------------------------------------------------------

  lemma {:induction false} WithoutNone(fields: seq<Field>)
    ensures WithoutGroups(fields, {}) == fields
  {
    if fields != [] {
      WithoutNone(fields[..|fields| - 1]);
    }
  }

  // A field survives removeABLabels exactly when its group was not consumed.
  lemma {:induction false} WithoutExact(fields: seq<Field>, groups: set<string>, f: Field)
    ensures f in WithoutGroups(fields, groups) <==> f in fields && f.group !in groups
  {
    if fields != [] {
      var rest, last := fields[..|fields| - 1], fields[|fields| - 1];
      WithoutExact(rest, groups, f);
      assert f in fields <==> f in rest || f == last;
    }
  }

  // The two parts share VERSION and nothing else.
  lemma PartsDisjoint(card: Card)
    ensures SignedPart(card).Keys * EncryptedPart(card).Keys == {VERSION}
  {
  }

  // The round trip, property by property: only VERSION, an empty FN, EMAIL groups and
  // TYPEs, and the labels that were folded are touched.
  lemma RoundTripAt(card: Card, name: string)
    ensures At(RoundTrip(card), name) ==
            if name == VERSION then [Plain("4.0")]
            else if name == FN then (if ValueOf(card, FN) == "" then [Plain(DeriveFN(card))] else At(card, FN))
            else if name == EMAIL then Emails(card).emails
            else if name == AB_LABEL then WithoutGroups(At(card, AB_LABEL), Emails(card).consumed)
            else At(card, name)
  {
    SignedAt(card, name);
    EncryptedAt(card, name);
    var s, e := SignedPart(card), EncryptedPart(card);
    assert At(s + e, name) == if name in e then At(e, name) else At(s, name);
  }

  lemma SignedAt(card: Card, name: string)
    ensures At(SignedPart(card), name) ==
            if name == VERSION then [Plain("4.0")]
            else if name == FN then (if ValueOf(card, FN) == "" then [Plain(DeriveFN(card))] else At(card, FN))
            else if name == EMAIL then Emails(card).emails
            else if name == UID then At(card, UID)
            else []
  {
    assert ValueOf(RoutedSigned(card), FN) == ValueOf(card, FN);
  }

  lemma EncryptedAt(card: Card, name: string)
    ensures name in EncryptedPart(card) ==> name == VERSION || !SignedName(name)
    ensures At(EncryptedPart(card), name) ==
            if name == VERSION then [Plain("4.0")]
            else if SignedName(name) then []
            else if name == AB_LABEL then WithoutGroups(At(card, AB_LABEL), Emails(card).consumed)
            else At(card, name)
  {
    WithoutNone(At(card, AB_LABEL));
    RemoveLabelsAt(RoutedEncrypted(card), Emails(card).consumed, name);
  }

  lemma RemoveLabelsAt(card: Card, groups: set<string>, name: string)
    ensures name in RemoveLabels(card, groups) ==> name in card
    ensures At(RemoveLabels(card, groups), name) == if name == AB_LABEL then WithoutGroups(At(card, AB_LABEL), groups) else At(card, name)
  {
    WithoutNone(At(card, AB_LABEL));
  }

  // The labels that disappear are those of email groups with a non-empty label.
  lemma {:induction false} ConsumedExact(labels: map<string, string>, others: set<string>, emails: seq<Field>, g: string)
    ensures g in Allocate(labels, others, emails).consumed <==> HasGroup(emails, g) && LabelOf(labels, g) != ""
  {
    if emails != [] {
      var rest, f := emails[..|emails| - 1], emails[|emails| - 1];
      ConsumedExact(labels, others, rest, g);
      HasGroupMore(rest, f, g);
      FrontLast(emails);
    }
  }

  lemma HasGroupMore(rest: seq<Field>, f: Field, g: string)
    ensures HasGroup(rest + [f], g) <==> HasGroup(rest, g) || f.group == g
  {
    var all := rest + [f];
    if HasGroup(rest, g) {
      var j :| 0 <= j < |rest| && rest[j].group == g;
      assert all[j].group == g;
    }
    if f.group == g {
      assert all[|rest|].group == g;
    }
  }

  // Proton's rule for the whole card: every email has a group of its own that no other
  // property of the result uses.
  lemma EmailGroupsUnique(card: Card)
    ensures FreshGroups(At(RoundTrip(card), EMAIL), NonEmailGroups(RoundTrip(card)))
    ensures |At(RoundTrip(card), EMAIL)| == |At(card, EMAIL)|
    ensures Emails(card).counter <= |NonEmailGroups(card)| + |At(card, EMAIL)| + 1
  {
    RoundTripAt(card, EMAIL);
    AllocateGroups(LabelsOf(At(card, AB_LABEL)), NonEmailGroups(card), At(card, EMAIL));
    CounterBounded(LabelsOf(At(card, AB_LABEL)), NonEmailGroups(card), At(card, EMAIL));
    GroupsShrink(card);
  }

  lemma GroupsShrink(card: Card)
    ensures NonEmailGroups(RoundTrip(card)) <= NonEmailGroups(card)
  {
    var rt := RoundTrip(card);
    forall g | g in NonEmailGroups(rt) ensures g in NonEmailGroups(card) {
      var name, i :| name in rt && name != EMAIL && 0 <= i < |rt[name]| && rt[name][i].group != "" && rt[name][i].group == g;
      RoundTripAt(card, name);
      var f := rt[name][i];
      assert f in At(rt, name);
      if name == AB_LABEL {
        WithoutExact(At(card, AB_LABEL), Emails(card).consumed, f);
      }
      assert f in At(card, name);
      var j :| 0 <= j < |card[name]| && card[name][j] == f;
      assert card[name][j].group != "";
    }
  }

  // ---- Idempotence ------------------------------------------------------------------

  lemma {:induction false} DropTwice(types: seq<string>)
    ensures DropInternet(DropInternet(types)) == DropInternet(types)
  {
    if types != [] {
      var rest, t := types[..|types| - 1], types[|types| - 1];
      DropTwice(rest);
      var kept := DropInternet(rest);
      assert (kept + [t])[..|kept|] == kept && kept + [] == kept;
    }
  }

  lemma RetypeTwice(f: Field, tag: string)
    ensures Retyped(Retyped(f, tag), "") == Retyped(f, tag) <==> !EqualFold(tag, "internet")
  {
    var g := Retyped(f, tag);
    if tag == "" {
      DropTwice(TypesOf(f));
      var kept := DropInternet(TypesOf(f));
      if kept != [] {
        assert g.params[TYPE := kept] == g.params;
      } else {
        assert g.params - {TYPE} == g.params;
      }
    } else {
      assert TypesOf(g) == [tag] && [tag][..0] == [];
      assert DropInternet([tag]) == if EqualFold(tag, "internet") then [] else [tag];
      if !EqualFold(tag, "internet") {
        assert g.params[TYPE := [tag]] == g.params;
      } else {
        assert TYPE in g.params && TYPE !in g.params - {TYPE};
      }
    }
  }

  function Untagged(emails: seq<Field>): (r: seq<Field>)
    ensures |r| == |emails| && forall i | 0 <= i < |emails| :: r[i] == Retyped(emails[i], "")
  {
    seq(|emails|, i requires 0 <= i < |emails| => Retyped(emails[i], ""))
  }

  // Emails whose groups are already good and unlabelled keep them; only TYPE is cleaned.
  lemma {:induction false} GoodGroupsStay(labels: map<string, string>, others: set<string>, emails: seq<Field>)
    requires FreshGroups(emails, others)
    requires forall i | 0 <= i < |emails| :: LabelOf(labels, emails[i].group) == ""
    ensures Allocate(labels, others, emails).emails == Untagged(emails)
    ensures Allocate(labels, others, emails).consumed == {}
  {
    if emails != [] {
      var rest, f := emails[..|emails| - 1], emails[|emails| - 1];
      GoodGroupsStay(labels, others, rest);
      AllocateGroups(labels, others, rest);
      FrontLast(emails);
      GoodGroupStays(labels, others, rest, f, Allocate(labels, others, rest));
      AllocateSnoc(labels, others, rest, f);
    }
  }

  lemma GoodGroupStays(labels: map<string, string>, others: set<string>, rest: seq<Field>, f: Field, a: Allocation)
    requires FreshGroups(rest + [f], others) && LabelOf(labels, f.group) == ""
    requires a.emails == Untagged(rest) && a.consumed == {} && AssignedExactly(a)
    ensures var b := AllocateOne(labels, others, a, f);
            b.emails == Untagged(rest + [f]) && b.consumed == {}
  {
    LastIsUsable(others, rest, f, a);
    assert NewEmail(labels, others, a, f) == Retyped(f, "");
    assert Untagged(rest + [f]) == Untagged(rest) + [Retyped(f, "")];
  }

  lemma LastIsUsable(others: set<string>, rest: seq<Field>, f: Field, a: Allocation)
    requires FreshGroups(rest + [f], others) && a.emails == Untagged(rest) && AssignedExactly(a)
    ensures Chosen(others, a, f.group) == (f.group, a.counter)
  {
    var all := rest + [f];
    assert all[|rest|] == f;
    TakenExactly(a.emails, a.taken, f.group);
    forall j | 0 <= j < |a.emails| ensures a.emails[j].group != f.group {
      assert all[j].group != all[|rest|].group;
    }
  }

  lemma {:induction false} LabelsAreGroups(fields: seq<Field>, g: string)
    ensures g in LabelsOf(fields) ==> g != "" && HasGroup(fields, g)
  {
    if fields != [] {
      var rest, f := fields[..|fields| - 1], fields[|fields| - 1];
      LabelsAreGroups(rest, g);
      HasGroupMore(rest, f, g);
      FrontLast(fields);
    }
  }

  lemma LabelledIsUsed(card: Card, g: string)
    ensures g in LabelsOf(At(card, AB_LABEL)) ==> g in NonEmailGroups(card)
  {
    LabelsAreGroups(At(card, AB_LABEL), g);
    if g in LabelsOf(At(card, AB_LABEL)) {
      var j :| 0 <= j < |At(card, AB_LABEL)| && At(card, AB_LABEL)[j].group == g;
      assert card[AB_LABEL][j].group != "";
    }
  }

  // After one round trip no email is labelled and every email group is good.
  lemma SecondAllocation(card: Card)
    ensures var rt := RoundTrip(card);
            Emails(rt).emails == Untagged(Emails(card).emails) && Emails(rt).consumed == {}
  {
    var rt := RoundTrip(card);
    var emails := Emails(card).emails;
    RoundTripAt(card, EMAIL);
    EmailGroupsUnique(card);
    forall i | 0 <= i < |emails| ensures LabelOf(LabelsOf(At(rt, AB_LABEL)), emails[i].group) == "" {
      LabelledIsUsed(rt, emails[i].group);
    }
    GoodGroupsStay(LabelsOf(At(rt, AB_LABEL)), NonEmailGroups(rt), emails);
  }

  // Some email's label reads "internet".
  ghost predicate FoldsInternet(card: Card) {
    exists i :: 0 <= i < |At(card, EMAIL)| &&
                EqualFold(LabelOf(LabelsOf(At(card, AB_LABEL)), At(card, EMAIL)[i].group), "internet")
  }

  lemma UntaggedFixed(card: Card)
    ensures Untagged(Emails(card).emails) == Emails(card).emails <==> !FoldsInternet(card)
  {
    var labels, others, emails := LabelsOf(At(card, AB_LABEL)), NonEmailGroups(card), At(card, EMAIL);
    var result := Emails(card).emails;
    AllocateLength(labels, others, emails);
    forall i | 0 <= i < |emails|
      ensures Retyped(result[i], "") == result[i] <==> !EqualFold(LabelOf(labels, emails[i].group), "internet")
    {
      AllocateKeeps(labels, others, emails, i);
      RetypeTwice(emails[i], LabelOf(labels, emails[i].group));
      RetypeIgnoresGroup(result[i], Retyped(emails[i], LabelOf(labels, emails[i].group)));
    }
    if !FoldsInternet(card) {
      assert Untagged(result) == result;
    } else {
      var i :| 0 <= i < |emails| && EqualFold(LabelOf(labels, emails[i].group), "internet");
      assert Untagged(result)[i] != result[i];
    }
  }

  lemma RetypeIgnoresGroup(e: Field, f: Field)
    requires e.(group := "") == f.(group := "")
    ensures Retyped(e, "") == e <==> Retyped(f, "") == f
  {
  }

  // The normaliser is idempotent on exactly the cards that do not fold a label "internet".
  lemma IdempotentExactly(card: Card)
    ensures (forall name :: At(RoundTrip(RoundTrip(card)), name) == At(RoundTrip(card), name)) <==> !FoldsInternet(card)
  {
    var rt := RoundTrip(card);
    SecondAllocation(card);
    UntaggedFixed(card);
    RoundTripAt(card, EMAIL);
    RoundTripAt(rt, EMAIL);
    if !FoldsInternet(card) {
      forall name ensures At(RoundTrip(rt), name) == At(rt, name) {
        SecondTripAt(card, name);
      }
    }
  }

  lemma SecondTripAt(card: Card, name: string)
    ensures name != EMAIL ==> At(RoundTrip(RoundTrip(card)), name) == At(RoundTrip(card), name)
    ensures !FoldsInternet(card) ==> At(RoundTrip(RoundTrip(card)), name) == At(RoundTrip(card), name)
  {
    var rt := RoundTrip(card);
    RoundTripAt(card, name);
    RoundTripAt(rt, name);
    SecondAllocation(card);
    UntaggedFixed(card);
    WithoutNone(At(rt, AB_LABEL));
    RoundTripAt(card, FN);
    RoundTripAt(card, N);
  }

  // ---- Seen by the merge ------------------------------------------------------------

  // A card the splitter has nothing to fold, clean or derive in.
  ghost predicate Normal(card: Card) {
    && ValueOf(card, FN) != ""
    && forall i | 0 <= i < |At(card, EMAIL)| ::
         var f := At(card, EMAIL)[i];
         LabelOf(LabelsOf(At(card, AB_LABEL)), f.group) == "" && Retyped(f, "") == f
  }

  lemma RegroupedEqual(a: seq<Field>, b: seq<Field>)
    requires |a| == |b| && forall i | 0 <= i < |a| :: a[i].(group := "") == b[i].(group := "")
    ensures FieldsEqual(a, b)
  {
    assert Keys(a) == Keys(b);
  }

  // On a normal card the round trip changes at most email groups, and the merge, which
  // ignores groups, sees no difference in any property but VERSION.
  lemma NormalIsInvisible(card: Card, name: string)
    requires Normal(card) && name != VERSION
    ensures FieldsEqual(At(RoundTrip(card), name), At(card, name))
  {
    var labels, others, emails := LabelsOf(At(card, AB_LABEL)), NonEmailGroups(card), At(card, EMAIL);
    RoundTripAt(card, name);
    if name == EMAIL {
      AllocateLength(labels, others, emails);
      forall i | 0 <= i < |emails| ensures Emails(card).emails[i].(group := "") == emails[i].(group := "") {
        AllocateKeeps(labels, others, emails, i);
      }
      RegroupedEqual(Emails(card).emails, emails);
    } else if name == AB_LABEL {
      NothingConsumed(labels, others, emails);
      WithoutNone(At(card, AB_LABEL));
    }
  }

  lemma {:induction false} NothingConsumed(labels: map<string, string>, others: set<string>, emails: seq<Field>)
    requires forall i | 0 <= i < |emails| :: LabelOf(labels, emails[i].group) == ""
    ensures Allocate(labels, others, emails).consumed == {}
  {
    if emails != [] {
      NothingConsumed(labels, others, emails[..|emails| - 1]);
    }
  }
}
