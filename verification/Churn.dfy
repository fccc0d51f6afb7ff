// A normalising store and contacts that never come to rest: the merge keeps CardDAV's
// unchanged value while the write test compares with Proton's.
module Churn {
  import opened Strings
  import opened Vcard
  import opened FieldEquality
  import opened ThreeWayMerge
  import opened CardSplit
  import opened CardNormal
  import opened SyncModel
  import opened ContactLaws
  import opened Recovery
  import opened LossyProton
  import opened NormalisingProton

  function Iterated<T>(step: T -> T, x: T, n: nat): T {
    if n == 0 then x else Iterated(step, step(x), n - 1)
  }

  lemma {:induction false} InvariantLasts<T(!new)>(step: T -> T, keeps: T -> bool, x: T, n: nat)
    requires keeps(x) && forall y | keeps(y) :: keeps(step(y))
    ensures keeps(Iterated(step, x, n))
    decreases n
  {
    if n > 0 {
      InvariantLasts(step, keeps, step(x), n - 1);
    }
  }

  ghost function CleanVisit(cfg: Config): Contact -> Contact {
    c => CleanEnd(cfg, c)
  }

  // One contact after n clean visits.
  ghost function AfterVisits(cfg: Config, c: Contact, n: nat): Contact {
    Iterated(CleanVisit(cfg), c, n)
  }

  // ---- Exactly which contacts are rewritten for ever --------------------------------

  // Proton holds what it returned for CardDAV's card, having added nothing to it, and the
  // bases say so. A decoded card has no property without fields.
  ghost predicate Echo(cfg: Config, c: Contact) {
    && c.proton.Some? && OnCardDAV(c) && c.base.Some?
    && var cd, pr := c.carddav.value, c.proton.value;
    && pr == cfg.norm(cd) && c.base.value.proton == pr && Same(c.base.value.carddav, cd)
    && (forall name | name in cd :: cd[name] != [])
    && pr.Keys <= cd.Keys && (At(pr, REV) == [] || At(pr, REV) == At(cd, REV))
  }

  lemma EchoMergeAt(cfg: Config, c: Contact, name: string)
    requires Echo(cfg, c)
    ensures At(Merged(cfg, c), name) == At(c.carddav.value, name)
  {
    var v := Versions4(c);
    MergeAt(cfg.rev, v, WinnerFor(cfg.rev, cfg.policy, v.pr, v.cd), name);
    assert FieldsEqual(At(v.cb, name), At(v.cd, name));
    assert At(v.cd, name) == [] ==> name !in v.pr;
  }

  lemma EchoMerge(cfg: Config, c: Contact)
    requires Echo(cfg, c)
    ensures Merged(cfg, c) == c.carddav.value
  {
    var m, cd := Merged(cfg, c), c.carddav.value;
    forall name ensures name in m <==> name in cd
                ensures name in m ==> m[name] == cd[name]
    {
      EchoMergeAt(cfg, c, name);
      assert name in m ==> At(m, name) != [];
    }
  }

  lemma EchoStep(cfg: Config, c: Contact)
    requires Echo(cfg, c)
    ensures var v := VisitContact(cfg, c, false, CLEAN);
            && Echo(cfg, v.contact) && v.contact.carddav == c.carddav && v.contact.proton == c.proton
            && (Quiet(v.effects) <==> Faithful(cfg, c.carddav.value))
  {
    var cd, pr := c.carddav.value, c.proton.value;
    EchoMerge(cfg, c);
    CleanBoth(cfg, c);
    CleanBothSends(cfg, c);
    DiffersOwnBase(cd, pr);
    assert Same(cd, cd);
  }

  lemma EchoLasts(cfg: Config, c: Contact, n: nat)
    requires Echo(cfg, c)
    ensures Echo(cfg, AfterVisits(cfg, c, n)) && AfterVisits(cfg, c, n).carddav == c.carddav
  {
    var same := (d: Contact) => Echo(cfg, d) && d.carddav == c.carddav;
    forall d | same(d) ensures same(CleanVisit(cfg)(d)) {
      EchoStep(cfg, d);
    }
    InvariantLasts(CleanVisit(cfg), same, c, n);
  }

  // Such a contact recovers from every disturbance, whether or not its card survives.
  lemma EchoIsResumable(cfg: Config, c: Contact)
    requires Echo(cfg, c) && WellFormed(cfg, c)
    ensures Resumable(cfg, c)
  {
    var again := c.(base := Some(Bases(c.proton.value, Merged(cfg, c))));
    EchoMerge(cfg, c);
    assert Same(c.carddav.value, c.carddav.value);
    EchoStep(cfg, c);
    EchoStep(cfg, again);
    CardsStayExactly(cfg, c);
    CardsStayExactly(cfg, again);
    StayIsResumable(cfg, c);
  }

  // ---- From the creation on ---------------------------------------------------------

  // The card with the formatted name that Proton derives when there is none.
  function Completed(modelled: set<string>, card: Card): Card {
    if FN in card || FN !in modelled then card else card[FN := [Plain(DeriveFN(card))]]
  }

  lemma SignedCompletes(card: Card, completed: Card)
    requires FN !in card && completed == card[FN := [Plain(DeriveFN(card))]]
    ensures WithFN(RoutedSigned(completed), completed) == WithFN(RoutedSigned(card), card)
  {
    assert RoutedSigned(completed) == RoutedSigned(card)[FN := [Plain(DeriveFN(card))]];
    assert DeriveFN(completed) == DeriveFN(card) by {
      assert ValueOf(completed, N) == ValueOf(card, N);
    }
  }

  lemma EmailsComplete(card: Card, completed: Card)
    requires FN !in card && completed == card[FN := [Plain(DeriveFN(card))]]
    ensures Emails(completed) == Emails(card)
  {
    forall g ensures g in NonEmailGroups(completed) <==> g in NonEmailGroups(card) {
      GroupElsewhere(card, completed, g);
    }
    assert NonEmailGroups(completed) == NonEmailGroups(card);
    assert At(completed, EMAIL) == At(card, EMAIL) && At(completed, AB_LABEL) == At(card, AB_LABEL);
  }

  // Adding the derived name beforehand makes no difference to the splitter.
  lemma TripCompletes(card: Card, completed: Card)
    requires FN !in card && completed == card[FN := [Plain(DeriveFN(card))]]
    ensures RoundTrip(completed) == RoundTrip(card)
  {
    EmailsComplete(card, completed);
    SignedCompletes(card, completed);
    assert RoutedEncrypted(completed) == RoutedEncrypted(card);
  }

  lemma GroupElsewhere(card: Card, completed: Card, g: string)
    requires FN !in card && completed == card[FN := [Plain(DeriveFN(card))]]
    ensures g in NonEmailGroups(completed) <==> g in NonEmailGroups(card)
  {
    if g in NonEmailGroups(completed) {
      var name, i :| name in completed && name != EMAIL && 0 <= i < |completed[name]| && completed[name][i].group != "" && completed[name][i].group == g;
      assert name in card && card[name][i].group != "";
    }
    if g in NonEmailGroups(card) {
      var name, i :| name in card && name != EMAIL && 0 <= i < |card[name]| && card[name][i].group != "" && card[name][i].group == g;
      assert name in completed && completed[name][i].group != "";
    }
  }

  predicate NoEmptyProperty(card: Card) {
    forall name | name in card :: card[name] != []
  }

  lemma TripKeys(card: Card)
    requires VERSION in card
    ensures RoundTrip(card).Keys <= card.Keys + {FN}
  {
  }

  lemma NormCompletes(cfg: Config, modelled: set<string>, card: Card)
    requires Normalises(cfg, modelled) && VERSION in card
    ensures var k := Completed(modelled, card);
            && cfg.norm(k) == cfg.norm(card) && cfg.norm(card).Keys <= k.Keys
            && (At(cfg.norm(card), REV) == [] || At(cfg.norm(card), REV) == At(k, REV))
  {
    var k := Completed(modelled, card);
    if k != card {
      TripCompletes(card, k);
    }
    var trip := RoundTrip(card);
    assert cfg.norm(card) == KeepOnly(modelled, trip) && cfg.norm(k) == KeepOnly(modelled, RoundTrip(k));
    NormalisedAt(cfg, modelled, card, REV);
    RoundTripAt(card, REV);
    TripKeys(card);
  }

  // Proton has just returned `card`, which CardDAV holds, and the bases say so.
  lemma CreatedEchoes(cfg: Config, modelled: set<string>, c: Contact)
    requires Normalises(cfg, modelled) && Waits(c) && NoEmptyProperty(c.carddav.value)
    requires Completed(modelled, c.carddav.value) == c.carddav.value
    ensures Echo(cfg, CleanEnd(cfg, c)) && CleanEnd(cfg, c).carddav == c.carddav
  {
    NormCompletes(cfg, modelled, c.carddav.value);
    assert Same(c.carddav.value, c.carddav.value);
  }

  // A card without FN, just created: the next run completes it, by a put.
  ghost predicate Nameless(cfg: Config, modelled: set<string>, s: Contact, card: Card) {
    && Encodable(card) && NoEmptyProperty(card) && Completed(modelled, card) != card
    && s.proton == Some(cfg.norm(card)) && s.carddav == Some(card) && s.base == Some(Bases(cfg.norm(card), card))
  }

  lemma DerivedName(cfg: Config, modelled: set<string>, card: Card)
    requires Normalises(cfg, modelled) && Completed(modelled, card) != card
    ensures At(cfg.norm(card), FN) == [Plain(DeriveFN(card))] == At(Completed(modelled, card), FN)
  {
    NormalisedAt(cfg, modelled, card, FN);
    RoundTripAt(card, FN);
  }

  lemma UnchangedMergeAt(cfg: Config, s: Contact, name: string)
    requires TwoSided(s) && s.base == Some(Bases(s.proton.value, s.carddav.value)) && name != REV
    ensures At(Merged(cfg, s), name) == FirstOf(At(s.carddav.value, name), At(s.proton.value, name))
  {
    MergeAt(cfg.rev, Versions4(s), Winner(cfg, s), name);
  }

  lemma UnchangedRev(cfg: Config, s: Contact)
    requires TwoSided(s)
    requires At(s.proton.value, REV) == [] || At(s.proton.value, REV) == At(s.carddav.value, REV)
    ensures At(Merged(cfg, s), REV) == At(s.carddav.value, REV)
  {
    MergeAt(cfg.rev, Versions4(s), Winner(cfg, s), REV);
  }

  lemma NamelessMergeAt(cfg: Config, modelled: set<string>, s: Contact, card: Card, name: string)
    requires Normalises(cfg, modelled) && Nameless(cfg, modelled, s, card)
    ensures At(Merged(cfg, s), name) == At(Completed(modelled, card), name)
  {
    NormCompletes(cfg, modelled, card);
    DerivedName(cfg, modelled, card);
    var k := Completed(modelled, card);
    if name == REV {
      UnchangedRev(cfg, s);
    } else {
      UnchangedMergeAt(cfg, s, name);
      assert At(k, name) == [] ==> name !in s.proton.value;
    }
  }

  lemma NamelessMerge(cfg: Config, modelled: set<string>, s: Contact, card: Card)
    requires Normalises(cfg, modelled) && Nameless(cfg, modelled, s, card)
    ensures Merged(cfg, s) == Completed(modelled, card) && !Same(Merged(cfg, s), card)
  {
    var m, k := Merged(cfg, s), Completed(modelled, card);
    forall name ensures name in m <==> name in k
                ensures name in m ==> m[name] == k[name]
    {
      NamelessMergeAt(cfg, modelled, s, card, name);
      assert name in m ==> At(m, name) != [];
    }
    assert !FieldsEqual(At(k, FN), At(card, FN));
  }

  lemma NamelessEchoes(cfg: Config, modelled: set<string>, c: Contact)
    requires Normalises(cfg, modelled) && Waits(c) && NoEmptyProperty(c.carddav.value)
    requires Completed(modelled, c.carddav.value) != c.carddav.value
    ensures var s := CleanEnd(cfg, c);
            && !Quiet(VisitContact(cfg, s, false, CLEAN).effects)
            && Echo(cfg, CleanEnd(cfg, s)) && CleanEnd(cfg, s).carddav == Some(Completed(modelled, c.carddav.value))
  {
    var card := c.carddav.value;
    var s := CleanEnd(cfg, c);
    NormCompletes(cfg, modelled, card);
    NamelessMerge(cfg, modelled, s, card);
    CleanBoth(cfg, s);
    CleanBothSends(cfg, s);
    assert Same(Completed(modelled, card), Completed(modelled, card));
  }

  lemma EchoQuietExactly(cfg: Config, c: Contact, card: Card, n: nat)
    requires Echo(cfg, c) && c.carddav == Some(card)
    ensures Quiet(VisitContact(cfg, AfterVisits(cfg, c, n), false, CLEAN).effects) <==> Faithful(cfg, card)
  {
    EchoLasts(cfg, c, n);
    EchoStep(cfg, AfterVisits(cfg, c, n));
  }

  // The state after the creation, or after the run that completes the card.
  ghost function Started(cfg: Config, modelled: set<string>, c: Contact): Contact
    requires Waits(c)
  {
    if Completed(modelled, c.carddav.value) == c.carddav.value then CleanEnd(cfg, c) else CleanEnd(cfg, CleanEnd(cfg, c))
  }

  lemma StartEchoes(cfg: Config, modelled: set<string>, c: Contact)
    requires Normalises(cfg, modelled) && Waits(c) && NoEmptyProperty(c.carddav.value)
    ensures Echo(cfg, Started(cfg, modelled, c))
    ensures Started(cfg, modelled, c).carddav == Some(Completed(modelled, c.carddav.value))
  {
    if Completed(modelled, c.carddav.value) == c.carddav.value {
      CreatedEchoes(cfg, modelled, c);
    } else {
      NamelessEchoes(cfg, modelled, c);
    }
  }

  // Once created on a normalising store, a contact is sent again on every clean run for
  // ever, or on none, exactly as its card does not or does survive the splitter. Only a
  // card without FN needs one run more: it first takes over the name that Proton derived.
  lemma RewrittenForEverExactly(cfg: Config, modelled: set<string>, c: Contact, n: nat)
    requires Normalises(cfg, modelled) && Waits(c) && NoEmptyProperty(c.carddav.value)
    ensures Quiet(VisitContact(cfg, AfterVisits(cfg, Started(cfg, modelled, c), n), false, CLEAN).effects) <==>
            Returned(modelled, Completed(modelled, c.carddav.value), {})
  {
    FaithfulExactly(cfg, modelled, Completed(modelled, c.carddav.value));
    StartEchoes(cfg, modelled, c);
    EchoQuietExactly(cfg, Started(cfg, modelled, c), Completed(modelled, c.carddav.value), n);
  }

  // What the splitter makes of a lone email: its label, or its TYPE without "internet".
  function Tag(card: Card, f: Field): string {
    LabelOf(LabelsOf(At(card, AB_LABEL)), f.group)
  }

  lemma LoneEmailSurvives(card: Card, f: Field)
    requires At(card, EMAIL) == [f] && Separable(f) && Separable(Retyped(f, Tag(card, f)))
    ensures EMAIL in RoundTrip(card)
    ensures Survives(card, EMAIL) <==> Meaning(Retyped(f, Tag(card, f))) == Meaning(f)
  {
    var labels, others := LabelsOf(At(card, AB_LABEL)), NonEmailGroups(card);
    RoundTripAt(card, EMAIL);
    AllocateKeeps(labels, others, [f], 0);
    var e, g := Emails(card).emails[0], Retyped(f, Tag(card, f));
    assert Emails(card).emails == [e] && e.(group := "") == g.(group := "");
    assert Key(e) == Key(g);
    assert Keys([e]) == [Key(e)] && Keys([f]) == [Key(f)];
    KeyIdentifies(f, g);
    assert KeyBag([f]) == KeyBag([e]) <==> Key(f) == Key(e) by {
      assert Key(f) in KeyBag([f]);
    }
  }

  // An Apple label on the email, not yet spelled out in its TYPE: never quiet.
  lemma LabelChurns(modelled: set<string>, card: Card, f: Field)
    requires EMAIL in modelled && At(card, EMAIL) == [f]
    requires Separable(f) && Separable(Retyped(f, Tag(card, f)))
    requires Tag(card, f) != "" && multiset(TypesOf(f)) != multiset([Tag(card, f)])
    ensures !Returned(modelled, card, {})
  {
    LoneEmailSurvives(card, f);
    var g := Retyped(f, Tag(card, f));
    assert Meaning(g).params[TYPE] == multiset([Tag(card, f)]);
    assert TYPE in f.params ==> Meaning(f).params[TYPE] == multiset(TypesOf(f));
    assert TYPE in Meaning(f).params <==> TYPE in f.params;
  }

  // ---- The generic TYPE -------------------------------------------------------------

  function InternetEmail(value: string, group: string): Field {
    Field(value, map[TYPE := ["INTERNET"]], group)
  }

  lemma InternetDropped(value: string, group: string)
    ensures Retyped(InternetEmail(value, group), "") == Field(value, map[], group)
  {
    var f := InternetEmail(value, group);
    assert EqualFold("INTERNET", "internet") by {
      FoldsToInternet();
    }
    assert TypesOf(f) == ["INTERNET"] && ["INTERNET"][..0] == [];
    assert DropInternet(TypesOf(f)) == [];
    assert f.params - {TYPE} == map[];
  }

  lemma FoldsToInternet()
    ensures EqualFold("INTERNET", "internet")
  {
    var a, b := "INTERNET", "internet";
    assert FoldChar(a[0]) == b[0] && FoldChar(a[1]) == b[1] && FoldChar(a[2]) == b[2] && FoldChar(a[3]) == b[3];
    assert FoldChar(a[4]) == b[4] && FoldChar(a[5]) == b[5] && FoldChar(a[6]) == b[6] && FoldChar(a[7]) == b[7];
    forall i | 0 <= i < |a| ensures FoldChar(a[i]) == FoldChar(b[i]) {
      assert i == 0 || i == 1 || i == 2 || i == 3 || i == 4 || i == 5 || i == 6 || i == 7;
    }
  }

  lemma TypeIsSeen(value: string, group: string, g: string)
    requires NUL !in value
    ensures !FieldsEqual([InternetEmail(value, group)], [Field(value, map[], g)])
  {
    var e, f := InternetEmail(value, group), Field(value, map[], g);
    KeyIdentifies(e, f);
    assert TYPE in Meaning(e).params && TYPE !in Meaning(f).params;
    assert Keys([e])[0] == Key(e) && Keys([f])[0] == Key(f);
    assert Keys([e]) == [Key(e)] && Keys([f]) == [Key(f)];
    assert Key(e) in KeyBag([e]);
  }

  // A settled contact whose only email carries the generic TYPE on CardDAV and not on Proton.
  ghost predicate Churning(c: Contact, value: string, group: string) {
    && c.proton.Some? && OnCardDAV(c) && c.base.Some?
    && c.base.value.proton == c.proton.value && Same(c.base.value.carddav, c.carddav.value)
    && At(c.carddav.value, EMAIL) == [InternetEmail(value, group)]
    && (exists g :: At(c.proton.value, EMAIL) == [Field(value, map[], g)])
    && At(c.carddav.value, AB_LABEL) == [] && At(c.proton.value, AB_LABEL) == []
  }

  lemma UntaggedReturn(cfg: Config, modelled: set<string>, card: Card, value: string, group: string)
    requires Normalises(cfg, modelled) && EMAIL in modelled
    requires At(card, EMAIL) == [InternetEmail(value, group)] && At(card, AB_LABEL) == []
    ensures exists g :: At(cfg.norm(card), EMAIL) == [Field(value, map[], g)]
    ensures At(cfg.norm(card), AB_LABEL) == []
  {
    var labels, others := LabelsOf(At(card, AB_LABEL)), NonEmailGroups(card);
    NormalisedAt(cfg, modelled, card, EMAIL);
    NormalisedAt(cfg, modelled, card, AB_LABEL);
    RoundTripAt(card, EMAIL);
    RoundTripAt(card, AB_LABEL);
    AllocateKeeps(labels, others, At(card, EMAIL), 0);
    InternetDropped(value, group);
    var e := Emails(card).emails[0];
    assert Emails(card).emails == [e];
    assert e == Field(value, map[], e.group);
  }

  // Every clean pass writes Proton again, because the merge keeps CardDAV's unchanged value
  // while the write test compares with Proton's.
  lemma ChurnStep(cfg: Config, modelled: set<string>, c: Contact, value: string, group: string)
    requires Normalises(cfg, modelled) && EMAIL in modelled && NUL !in value
    requires Churning(c, value, group)
    ensures var v := VisitContact(cfg, c, false, CLEAN);
            !Quiet(v.effects) && Churning(v.contact, value, group)
  {
    var m := Merged(cfg, c);
    var ver := Versions4(c);
    var g :| At(c.proton.value, EMAIL) == [Field(value, map[], g)];
    assert FieldsEqual(At(c.base.value.carddav, EMAIL), At(c.carddav.value, EMAIL));
    assert FieldsEqual(At(c.base.value.carddav, AB_LABEL), At(c.carddav.value, AB_LABEL));
    MergeAt(cfg.rev, ver, WinnerFor(cfg.rev, cfg.policy, ver.pr, ver.cd), EMAIL);
    MergeAt(cfg.rev, ver, WinnerFor(cfg.rev, cfg.policy, ver.pr, ver.cd), AB_LABEL);
    assert At(m, EMAIL) == [InternetEmail(value, group)] && At(m, AB_LABEL) == [];
    TypeIsSeen(value, group, g);
    assert EMAIL in c.proton.value.Keys + ProtonBase(c).Keys;
    assert WroteProton(cfg, c);
    UntaggedReturn(cfg, modelled, m, value, group);
    CleanBoth(cfg, c);
    CleanBothSends(cfg, c);
  }

  lemma ChurnLasts(cfg: Config, modelled: set<string>, c: Contact, value: string, group: string, n: nat)
    requires Normalises(cfg, modelled) && EMAIL in modelled && NUL !in value
    requires Churning(c, value, group)
    ensures Churning(AfterVisits(cfg, c, n), value, group)
  {
    var churning := (d: Contact) => Churning(d, value, group);
    forall d | churning(d) ensures churning(CleanVisit(cfg)(d)) {
      ChurnStep(cfg, modelled, d, value, group);
    }
    InvariantLasts(CleanVisit(cfg), churning, c, n);
  }

  // The generic TYPE is rewritten to Proton on every run, for ever.
  lemma ChurnsForEver(cfg: Config, modelled: set<string>, c: Contact, value: string, group: string, n: nat)
    requires Normalises(cfg, modelled) && EMAIL in modelled && NUL !in value
    requires Churning(c, value, group)
    ensures !Quiet(VisitContact(cfg, AfterVisits(cfg, c, n), false, CLEAN).effects)
  {
    ChurnLasts(cfg, modelled, c, value, group, n);
    ChurnStep(cfg, modelled, AfterVisits(cfg, c, n), value, group);
  }

  // One clean visit to a contact that only CardDAV has leads there.
  lemma CreationChurns(cfg: Config, modelled: set<string>, c: Contact, value: string, group: string)
    requires Normalises(cfg, modelled) && EMAIL in modelled && Waits(c)
    requires At(c.carddav.value, EMAIL) == [InternetEmail(value, group)] && At(c.carddav.value, AB_LABEL) == []
    ensures Churning(VisitContact(cfg, c, false, CLEAN).contact, value, group)
  {
    UntaggedReturn(cfg, modelled, c.carddav.value, value, group);
    assert Same(c.carddav.value, c.carddav.value);
  }
}
