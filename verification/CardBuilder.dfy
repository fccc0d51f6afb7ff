// buildContactCards as the program runs it: fields are shared objects, and the emails are
// relabelled and regrouped in place.
module CardBuilder {
  import opened Sequences
  import opened Strings
  import opened Vcard
  import opened CardSplit

  class FieldRef {
    var value: string
    var params: map<string, seq<string>>
    var group: string

    constructor (value: string)
      ensures this.value == value && params == map[] && group == ""
    {
      this.value, params, group := value, map[], "";
    }

    function Val(): Field
      reads this
    {
      Field(value, params, group)
    }
  }

  type RefCard = map<string, seq<FieldRef>>

  function Vals(refs: seq<FieldRef>): (r: seq<Field>)
    reads refs
    ensures |r| == |refs| && forall i | 0 <= i < |refs| :: r[i] == refs[i].Val()
  {
    seq(|refs|, i requires 0 <= i < |refs| reads refs => refs[i].Val())
  }

  function Refs(card: RefCard): set<FieldRef> {
    set name, i | name in card && 0 <= i < |card[name]| :: card[name][i]
  }

  ghost function View(card: RefCard): Card
    reads Refs(card)
  {
    map name | name in card :: Vals(card[name])
  }

  function RefsAt(card: RefCard, name: string): seq<FieldRef> {
    if name in card then card[name] else []
  }

  // The decoder allocates every field afresh: no object occurs twice.
  ghost predicate Unshared(card: RefCard) {
    forall m, n, i, j :: m in card && n in card && 0 <= i < |card[m]| && 0 <= j < |card[n]| && card[m][i] == card[n][j] ==> m == n && i == j
  }

  ghost predicate DistinctRefs(refs: seq<FieldRef>) {
    forall i, j | 0 <= i < j < |refs| :: refs[i] != refs[j]
  }

  // setEmailType
  method SetEmailType(f: FieldRef, tag: string)
    requires tag != ""
    modifies f`params
    ensures f.Val() == Retyped(old(f.Val()), tag)
    ensures f.params == old(f.params)[TYPE := [tag]]
  {
    f.params := f.params[TYPE := [tag]];
  }

  // dropGenericType
  method DropGenericType(f: FieldRef)
    modifies f`params
    ensures f.Val() == Retyped(old(f.Val()), "")
    ensures f.params - {TYPE} == old(f.params) - {TYPE}
  {
    var types := if TYPE in f.params then f.params[TYPE] else [];
    var kept: seq<string> := [];
    for i := 0 to |types|
      invariant kept == DropInternet(types[..i])
    {
      assert types[..i + 1][..i] == types[..i];
      if !EqualFold(types[i], "internet") {
        kept := kept + [types[i]];
      }
    }
    assert types[..|types|] == types;
    if |kept| == 0 {
      f.params := f.params - {TYPE};
    } else {
      f.params := f.params[TYPE := kept];
    }
  }

  // The search for a free itemN. Nothing in the code bounds it; it ends because the names
  // in use run out.
  method FreshGroup(others: set<string>, taken: set<string>, counter: nat) returns (g: string, counter': nat)
    ensures g == Item(NextFree(others + taken, counter))
    ensures counter' == NextFree(others + taken, counter) + 1
  {
    counter' := counter;
    while true
      invariant counter' >= counter
      invariant NextFree(others + taken, counter') == NextFree(others + taken, counter)
      decreases |Ahead(others + taken, counter')|
    {
      g := Item(counter');
      if g !in others && g !in taken {
        counter' := counter' + 1;
        return;
      }
      AheadShrinks(others + taken, counter');
      counter' := counter' + 1;
    }
  }

  method AllocateRef(f: FieldRef, labels: map<string, string>, others: set<string>, taken: set<string>, consumed: set<string>,
                     counter: nat, ghost a: Allocation) returns (taken': set<string>, consumed': set<string>, counter': nat)
    requires a.taken == taken && a.consumed == consumed && a.counter == counter
    modifies f
    ensures var b := AllocateOne(labels, others, a, old(f.Val()));
            && f.Val() == NewEmail(labels, others, a, old(f.Val()))
            && b.taken == taken' && b.consumed == consumed' && b.counter == counter'
  {
    var orig := f.group;
    var tag := LabelOf(labels, orig);
    consumed' := consumed;
    if tag != "" {
      SetEmailType(f, tag);
      consumed' := consumed + {orig};
    } else {
      DropGenericType(f);
    }
    var g := orig;
    counter' := counter;
    if g == "" || g in others || g in taken {
      g, counter' := FreshGroup(others, taken, counter);
    }
    f.group := g;
    taken' := taken + {g};
  }

  // The first i emails are as a says, the others as before.
  ghost predicate Halfway(emails: seq<FieldRef>, before: seq<Field>, i: nat, a: Allocation)
    reads emails
  {
    && |before| == |emails| && i <= |emails| && |a.emails| == i
    && (forall j | 0 <= j < i :: emails[j].Val() == a.emails[j])
    && (forall j | i <= j < |emails| :: emails[j].Val() == before[j])
  }

  method AllocateNext(emails: seq<FieldRef>, ghost before: seq<Field>, i: nat, labels: map<string, string>, others: set<string>,
                      taken: set<string>, consumed: set<string>, counter: nat, ghost a: Allocation)
    returns (taken': set<string>, consumed': set<string>, counter': nat)
    requires DistinctRefs(emails) && i < |emails| && Halfway(emails, before, i, a)
    requires a.taken == taken && a.consumed == consumed && a.counter == counter
    modifies emails[i]
    ensures var b := AllocateOne(labels, others, a, before[i]);
            Halfway(emails, before, i + 1, b) && b.taken == taken' && b.consumed == consumed' && b.counter == counter'
  {
    taken', consumed', counter' := AllocateRef(emails[i], labels, others, taken, consumed, counter, a);
  }

  // The loop over the signed card's emails.
  method AllocateRefs(emails: seq<FieldRef>, labels: map<string, string>, others: set<string>) returns (consumed: set<string>)
    requires DistinctRefs(emails)
    modifies emails
    ensures Vals(emails) == Allocate(labels, others, old(Vals(emails))).emails
    ensures consumed == Allocate(labels, others, old(Vals(emails))).consumed
  {
    ghost var before := Vals(emails);
    var taken: set<string> := {};
    consumed := {};
    var counter: nat := 1;
    for i := 0 to |emails|
      invariant Halfway(emails, before, i, Allocate(labels, others, before[..i]))
      invariant Allocate(labels, others, before[..i]).taken == taken
      invariant Allocate(labels, others, before[..i]).consumed == consumed
      invariant Allocate(labels, others, before[..i]).counter == counter
    {
      AllocateSnoc(labels, others, before[..i], before[i]);
      TakeOneMore(before, i);
      taken, consumed, counter := AllocateNext(emails, before, i, labels, others, taken, consumed, counter,
                                               Allocate(labels, others, before[..i]));
    }
    TakeAll(before);
    assert Vals(emails) == Allocate(labels, others, before).emails;
  }

  // abLabelsByGroup
  method LabelsByGroup(fields: seq<FieldRef>, ghost all: seq<Field>) returns (labels: map<string, string>)
    requires all == Vals(fields)
    ensures labels == LabelsOf(all)
  {
    labels := map[];
    for i := 0 to |fields|
      invariant labels == LabelsOf(all[..i])
    {
      assert all[..i + 1][..i] == all[..i];
      var f := fields[i];
      if f.group != "" && f.value != "" {
        labels := labels[f.group := DecodeLabel(f.value)];
      }
    }
    assert all[..|fields|] == all;
  }

  // groupsUsedExcept(card, EMAIL)
  method GroupsUsedExceptEmail(card: RefCard, ghost v: Card) returns (groups: set<string>)
    requires v == View(card)
    ensures groups == NonEmailGroups(v)
  {
    groups := {};
    ghost var done := {};
    var pending := card.Keys;
    while pending != {}
      invariant done !! pending && done + pending == v.Keys
      invariant forall name | name in card :: v[name] == Vals(card[name])
      invariant groups == GroupsUpTo(v, done)
      decreases |pending|
    {
      var name :| name in pending;
      groups := AddGroups(card[name], name, groups, v, done);
      pending := pending - {name};
      done := done + {name};
    }
    assert Restrict(v, done) == v;
  }

  // The groups of the properties in `names`.
  function GroupsUpTo(v: Card, names: set<string>): set<string> {
    NonEmailGroups(Restrict(v, names))
  }

  method AddGroups(fields: seq<FieldRef>, name: string, groups: set<string>, ghost v: Card, ghost done: set<string>)
    returns (groups': set<string>)
    requires name in v && v[name] == Vals(fields) && name !in done && groups == GroupsUpTo(v, done)
    ensures groups' == GroupsUpTo(v, done + {name})
  {
    GroupsOneMore(v, done, name);
    groups' := groups;
    if name != EMAIL {
      var used := GroupsIn(fields);
      groups' := groups + used;
    }
  }

  function GroupSet(fields: seq<Field>): set<string> {
    set i | 0 <= i < |fields| && fields[i].group != "" :: fields[i].group
  }

  method GroupsIn(fields: seq<FieldRef>) returns (groups: set<string>)
    ensures groups == GroupSet(Vals(fields))
  {
    groups := {};
    ghost var all := Vals(fields);
    for i := 0 to |fields|
      invariant groups == GroupSet(all[..i])
    {
      assert all[..i + 1] == all[..i] + [all[i]];
      GroupSetMore(all[..i], all[i]);
      if fields[i].group != "" {
        groups := groups + {fields[i].group};
      }
    }
    assert all[..|fields|] == all;
  }

  lemma GroupSetMore(fields: seq<Field>, f: Field)
    ensures GroupSet(fields + [f]) == if f.group == "" then GroupSet(fields) else GroupSet(fields) + {f.group}
  {
    var all := fields + [f];
    forall g | g in GroupSet(fields) + (if f.group == "" then {} else {f.group}) ensures g in GroupSet(all) {
      if g in GroupSet(fields) {
        var i :| 0 <= i < |fields| && fields[i].group != "" && fields[i].group == g;
        assert all[i].group == g;
      } else {
        assert all[|fields|].group == g;
      }
    }
  }

  function Restrict(card: Card, names: set<string>): Card {
    map name | name in card && name in names :: card[name]
  }

  lemma GroupsOneMore(card: Card, names: set<string>, name: string)
    requires name in card && name !in names
    ensures NonEmailGroups(Restrict(card, names + {name})) ==
            NonEmailGroups(Restrict(card, names)) + if name == EMAIL then {} else GroupSet(card[name])
  {
    var small, big := Restrict(card, names), Restrict(card, names + {name});
    assert big == small[name := card[name]];
    GroupsWith(small, name, card[name]);
  }

  lemma GroupsWith(card: Card, name: string, fields: seq<Field>)
    requires name !in card
    ensures NonEmailGroups(card[name := fields]) == NonEmailGroups(card) + if name == EMAIL then {} else GroupSet(fields)
  {
    var big := card[name := fields];
    forall g | g in NonEmailGroups(card) ensures g in NonEmailGroups(big) {
      var n, i :| n in card && n != EMAIL && 0 <= i < |card[n]| && card[n][i].group != "" && card[n][i].group == g;
      assert big[n][i].group == g;
    }
    if name != EMAIL {
      forall g | g in GroupSet(fields) ensures g in NonEmailGroups(big) {
        var i :| 0 <= i < |fields| && fields[i].group != "" && fields[i].group == g;
        assert big[name][i].group == g;
      }
    }
  }

  // ---- The whole builder ------------------------------------------------------------

  function RefValue(card: RefCard, name: string): string
    reads RefsAt(card, name)
  {
    if RefsAt(card, name) == [] then "" else RefsAt(card, name)[0].value
  }

  // part holds, besides one VERSION field, exactly the parsed properties of its side.
  ghost predicate IsRouted(parsed: RefCard, part: RefCard, toSigned: bool, version: FieldRef) {
    && VERSION in part && part[VERSION] == [version]
    && forall name | name != VERSION :: (name in part <==> name in parsed && SignedName(name) == toSigned)
                                        && (name in part ==> part[name] == parsed[name])
  }

  // Both parts take over the parsed fields themselves, not copies.
  method Route(parsed: RefCard) returns (signed: RefCard, encrypted: RefCard, v1: FieldRef, v2: FieldRef)
    ensures fresh(v1) && fresh(v2) && v1.Val() == v2.Val() == Plain("4.0")
    ensures IsRouted(parsed, signed, true, v1) && IsRouted(parsed, encrypted, false, v2)
  {
    v1 := new FieldRef("4.0");
    v2 := new FieldRef("4.0");
    signed, encrypted := map[VERSION := [v1]], map[VERSION := [v2]];
    var pending := parsed.Keys;
    while pending != {}
      invariant pending <= parsed.Keys && v1.Val() == v2.Val() == Plain("4.0")
      invariant IsRouted(parsed - pending, signed, true, v1) && IsRouted(parsed - pending, encrypted, false, v2)
      decreases |pending|
    {
      var name :| name in pending;
      RoutedMore(parsed, pending, name, signed, true, v1);
      RoutedMore(parsed, pending, name, encrypted, false, v2);
      pending := pending - {name};
      if name != VERSION {
        if SignedName(name) {
          signed := signed[name := parsed[name]];
        } else {
          encrypted := encrypted[name := parsed[name]];
        }
      }
    }
    assert parsed - pending == parsed;
  }

  lemma RoutedMore(parsed: RefCard, pending: set<string>, name: string, part: RefCard, toSigned: bool, version: FieldRef)
    requires name in pending && pending <= parsed.Keys && IsRouted(parsed - pending, part, toSigned, version)
    ensures IsRouted(parsed - (pending - {name}),
                     if name != VERSION && SignedName(name) == toSigned then part[name := parsed[name]] else part, toSigned, version)
  {
  }

  // removeABLabels
  method RemoveLabelRefs(card: RefCard, groups: set<string>, ghost e: Card) returns (result: RefCard)
    requires e == View(card)
    ensures View(result) == RemoveLabels(e, groups)
  {
    result := card;
    if groups == {} || AB_LABEL !in card {
      return;
    }
    var kept := KeepRefs(card[AB_LABEL], groups);
    if |kept| == 0 {
      result := card - {AB_LABEL};
    } else {
      result := card[AB_LABEL := kept];
    }
  }

  method KeepRefs(fields: seq<FieldRef>, groups: set<string>) returns (kept: seq<FieldRef>)
    ensures Vals(kept) == WithoutGroups(Vals(fields), groups)
  {
    kept := [];
    ghost var all := Vals(fields);
    for i := 0 to |fields|
      invariant Vals(kept) == WithoutGroups(all[..i], groups)
    {
      TakeOneMore(all, i);
      if fields[i].group !in groups {
        ghost var before := kept;
        kept := kept + [fields[i]];
        assert Vals(kept) == Vals(before) + [fields[i].Val()];
      }
    }
    TakeAll(all);
  }

  method DeriveRef(parsed: RefCard, ghost v: Card) returns (derived: string)
    requires v == View(parsed)
    ensures derived == DeriveFN(v)
  {
    derived := "Unknown";
    RefValueIs(parsed, N);
    if RefValue(parsed, N) != "" {
      derived := TrimSpace(ReplaceChar(RefValue(parsed, N), ';', ' '));
    }
  }

  // FN is mandatory in the signed card; r is the new field if one was needed.
  method EnsureFN(signed: RefCard, parsed: RefCard, ghost v: Card) returns (result: RefCard, r: FieldRef?)
    requires v == View(parsed) && RefsAt(signed, FN) == RefsAt(parsed, FN)
    ensures r == null <==> ValueOf(v, FN) != ""
    ensures r == null ==> result == signed
    ensures r != null ==> fresh(r) && r.Val() == Plain(DeriveFN(v)) && result == signed[FN := [r]]
  {
    result, r := signed, null;
    RefValueIs(parsed, FN);
    if RefValue(signed, FN) == "" {
      var derived := DeriveRef(parsed, v);
      var fn := new FieldRef(derived);
      result, r := signed[FN := [fn]], fn;
    }
  }

  lemma RefValueIs(card: RefCard, name: string)
    ensures RefValue(card, name) == ValueOf(View(card), name)
  {
  }

  // Apart from the entry for EMAIL, card uses none of the given objects.
  ghost predicate Apart(card: RefCard, emails: seq<FieldRef>) {
    && (EMAIL in card ==> card[EMAIL] == emails)
    && forall name, i | name in card && name != EMAIL && 0 <= i < |card[name]| :: card[name][i] !in emails
  }

  lemma SameVals(refs: seq<FieldRef>, vals: seq<Field>)
    requires |refs| == |vals| && forall i | 0 <= i < |refs| :: refs[i].Val() == vals[i]
    ensures Vals(refs) == vals
  {
  }

  // AllocateRefs, seen from a card that holds the emails, or holds none of them; s is
  // what the card looked like before.
  method AllocateIn(signed: RefCard, encrypted: RefCard, emails: seq<FieldRef>, labels: map<string, string>, others: set<string>,
                    ghost a: Allocation, ghost s: Card, ghost e: Card) returns (consumed: set<string>)
    requires DistinctRefs(emails) && Apart(signed, emails) && Apart(encrypted, emails) && EMAIL !in encrypted
    requires a == Allocate(labels, others, Vals(emails)) && s == View(signed) && e == View(encrypted)
    modifies emails
    ensures consumed == a.consumed
    ensures View(signed) == if EMAIL in s then s[EMAIL := a.emails] else s
    ensures View(encrypted) == e
  {
    consumed := AllocateRefs(emails, labels, others);
    forall name, i | name in signed && name != EMAIL && 0 <= i < |signed[name]|
      ensures signed[name][i].Val() == s[name][i]
    {
      assert signed[name][i] !in emails;
      assert s[name] == old(Vals(signed[name]));
    }
    forall name, i | name in encrypted && name != EMAIL && 0 <= i < |encrypted[name]|
      ensures encrypted[name][i].Val() == e[name][i]
    {
      assert encrypted[name][i] !in emails;
      assert e[name] == old(Vals(encrypted[name]));
    }
    ApartKeeps(signed, emails, s);
    ApartKeeps(encrypted, emails, e);
  }

  // A card whose other fields still read as in s looks like s, but for its emails.
  lemma ApartKeeps(card: RefCard, emails: seq<FieldRef>, s: Card)
    requires Apart(card, emails) && card.Keys == s.Keys
    requires forall name | name in card :: |card[name]| == |s[name]|
    requires forall name, i | name in card && name != EMAIL && 0 <= i < |card[name]| :: card[name][i].Val() == s[name][i]
    ensures View(card) == if EMAIL in s then s[EMAIL := Vals(emails)] else s
  {
    forall name | name in card && name != EMAIL ensures Vals(card[name]) == s[name] {
      SameVals(card[name], s[name]);
    }
  }

  // The two parts before the emails are touched.
  method Prepare(parsed: RefCard, ghost v: Card) returns (signed: RefCard, encrypted: RefCard)
    requires Unshared(parsed) && v == View(parsed)
    ensures v == View(parsed)
    ensures View(signed) == WithFN(RoutedSigned(v), v) && View(encrypted) == RoutedEncrypted(v)
    ensures Apart(signed, RefsAt(parsed, EMAIL)) && Apart(encrypted, RefsAt(parsed, EMAIL))
    ensures EMAIL !in encrypted
  {
    var routed, v1, v2, r;
    routed, encrypted, v1, v2 := Route(parsed);
    signed, r := EnsureFN(routed, parsed, v);
    assert v1 !in RefsAt(parsed, EMAIL) && v2 !in RefsAt(parsed, EMAIL) && r !in RefsAt(parsed, EMAIL);
    StillViewed(parsed, v);
    RoutedView(parsed, routed, true, v1);
    RoutedView(parsed, encrypted, false, v2);
    RoutedApart(parsed, routed, true, v1);
    RoutedApart(parsed, encrypted, false, v2);
    FNView(routed, signed, r, v, RefsAt(parsed, EMAIL));
  }

  lemma StillViewed(card: RefCard, v: Card)
    requires card.Keys == v.Keys && forall name | name in card :: Vals(card[name]) == v[name]
    ensures View(card) == v
  {
  }

  lemma FNView(routed: RefCard, signed: RefCard, r: FieldRef?, v: Card, emails: seq<FieldRef>)
    requires View(routed) == RoutedSigned(v) && Apart(routed, emails)
    requires r == null <==> ValueOf(v, FN) != ""
    requires r == null ==> signed == routed
    requires r != null ==> r !in emails && r.Val() == Plain(DeriveFN(v)) && signed == routed[FN := [r]]
    ensures View(signed) == WithFN(RoutedSigned(v), v) && Apart(signed, emails)
  {
    assert ValueOf(RoutedSigned(v), FN) == ValueOf(v, FN);
    if r != null {
      assert Vals([r]) == [Plain(DeriveFN(v))];
      assert View(signed) == View(routed)[FN := [Plain(DeriveFN(v))]];
    }
  }

  lemma RoutedView(parsed: RefCard, part: RefCard, toSigned: bool, version: FieldRef)
    requires IsRouted(parsed, part, toSigned, version) && version.Val() == Plain("4.0")
    ensures View(part) == if toSigned then RoutedSigned(View(parsed)) else RoutedEncrypted(View(parsed))
  {
    assert Vals([version]) == [Plain("4.0")];
  }

  lemma RoutedApart(parsed: RefCard, part: RefCard, toSigned: bool, version: FieldRef)
    requires Unshared(parsed) && IsRouted(parsed, part, toSigned, version) && version !in RefsAt(parsed, EMAIL)
    ensures Apart(part, RefsAt(parsed, EMAIL))
  {
    forall name, i | name in part && name != EMAIL && 0 <= i < |part[name]| ensures part[name][i] !in RefsAt(parsed, EMAIL) {
      if name != VERSION {
        UnsharedApart(parsed, name);
      }
    }
  }

  lemma UnsharedApart(parsed: RefCard, name: string)
    requires Unshared(parsed) && name in parsed && name != EMAIL
    ensures forall r | r in parsed[name] :: r !in RefsAt(parsed, EMAIL)
  {
    forall r | r in parsed[name] ensures r !in RefsAt(parsed, EMAIL) {
      var i :| 0 <= i < |parsed[name]| && parsed[name][i] == r;
      forall j | 0 <= j < |RefsAt(parsed, EMAIL)| ensures RefsAt(parsed, EMAIL)[j] != r {
        assert parsed[name][i] != parsed[EMAIL][j];
      }
    }
  }

  lemma UnsharedDistinct(parsed: RefCard, name: string)
    requires Unshared(parsed)
    ensures DistinctRefs(RefsAt(parsed, name))
  {
  }

  lemma RefsAtView(card: RefCard, name: string)
    ensures Vals(RefsAt(card, name)) == At(View(card), name)
  {
  }

  lemma SplitIs(v: Card)
    ensures SignedPart(v) == var s := WithFN(RoutedSigned(v), v); if EMAIL in s then s[EMAIL := Emails(v).emails] else s
    ensures EMAIL in WithFN(RoutedSigned(v), v) <==> EMAIL in v
  {
  }

  // The allocation's inputs, read before any email is touched.
  method ReadLabelsAndGroups(parsed: RefCard, ghost v: Card) returns (labels: map<string, string>, others: set<string>)
    requires v == View(parsed)
    ensures v == View(parsed)
    ensures labels == LabelsOf(At(v, AB_LABEL)) && others == NonEmailGroups(v)
  {
    RefsAtView(parsed, AB_LABEL);
    labels := LabelsByGroup(RefsAt(parsed, AB_LABEL), At(v, AB_LABEL));
    others := GroupsUsedExceptEmail(parsed, v);
    StillViewed(parsed, v);
  }

  // buildContactCards: the emails are changed in place, everything else is left alone,
  // and the two parts are the split of the card as it was parsed.
  method BuildContactCards(parsed: RefCard) returns (signed: RefCard, encrypted: RefCard)
    requires Unshared(parsed)
    modifies RefsAt(parsed, EMAIL)
    ensures View(signed) == SignedPart(old(View(parsed)))
    ensures View(encrypted) == EncryptedPart(old(View(parsed)))
  {
    ghost var v := View(parsed);
    var labels, others := ReadLabelsAndGroups(parsed, v);
    signed, encrypted := BuildParts(parsed, labels, others, v);
  }

  method BuildParts(parsed: RefCard, labels: map<string, string>, others: set<string>, ghost v: Card)
    returns (signed: RefCard, encrypted: RefCard)
    requires Unshared(parsed) && v == View(parsed)
    requires labels == LabelsOf(At(v, AB_LABEL)) && others == NonEmailGroups(v)
    modifies RefsAt(parsed, EMAIL)
    ensures View(signed) == SignedPart(v) && View(encrypted) == EncryptedPart(v)
  {
    UnsharedDistinct(parsed, EMAIL);
    signed, encrypted := Prepare(parsed, v);
    RefsAtView(parsed, EMAIL);
    SplitIs(v);
    var consumed := AllocateIn(signed, encrypted, RefsAt(parsed, EMAIL), labels, others, Emails(v), WithFN(RoutedSigned(v), v), RoutedEncrypted(v));
    encrypted := RemoveIn(signed, encrypted, consumed, v);
  }

  method RemoveIn(signed: RefCard, encrypted: RefCard, consumed: set<string>, ghost v: Card) returns (result: RefCard)
    requires View(signed) == SignedPart(v) && View(encrypted) == RoutedEncrypted(v) && consumed == Emails(v).consumed
    ensures View(signed) == SignedPart(v) && View(result) == EncryptedPart(v)
  {
    ghost var s := View(signed);
    result := RemoveLabelRefs(encrypted, consumed, RoutedEncrypted(v));
    StillViewed(signed, s);
  }
}
