// How a card is split for Proton: a cleartext signed part and an encrypted part, with
// every email in a vCard group of its own and Apple labels folded into TYPE.
module CardSplit {
  import opened Sequences
  import opened Strings
  import opened Vcard

  // ---- Names and labels -------------------------------------------------------------

  // fmt.Sprintf("item%d", n)
  function Item(n: nat): string {
    "item" + Decimal(n)
  }

  lemma ItemInjective(m: nat, n: nat)
    requires Item(m) == Item(n)
    ensures m == n
  {
    assert Item(m)[4..] == Decimal(m) && Item(n)[4..] == Decimal(n);
    DecimalInjective(m, n);
  }

  // Apple's `_$!<Home>!$_` encoding, unwrapped.
  function DecodeLabel(s: string): string {
    if HasPrefix(s, "_$!<") && HasSuffix(s, ">!$_") then
      assert |s| >= 8 by { MarkersDisjoint(s); }
      s[4..|s| - 4]
    else s
  }

  lemma MarkersDisjoint(s: string)
    requires HasPrefix(s, "_$!<") && HasSuffix(s, ">!$_")
    ensures |s| >= 8
  {
    assert s[3] == s[..4][3] == '<';
    forall i | |s| - 4 <= i < |s| ensures s[i] != '<' {
      assert s[i] == s[|s| - 4..][i - (|s| - 4)];
    }
  }

  // abLabelsByGroup: the last non-empty label of each group.
  function LabelsOf(fields: seq<Field>): map<string, string> {
    if fields == [] then map[] else
      var rest, f := LabelsOf(fields[..|fields| - 1]), fields[|fields| - 1];
      if f.group != "" && f.value != "" then rest[f.group := DecodeLabel(f.value)] else rest
  }

  function LabelOf(labels: map<string, string>, group: string): string {
    if group in labels then labels[group] else ""
  }

  // groupsUsedExcept(card, EMAIL)
  function NonEmailGroups(card: Card): set<string> {
    set name, i | name in card && name != EMAIL && 0 <= i < |card[name]| && card[name][i].group != "" :: card[name][i].group
  }

  // ---- TYPE parameters --------------------------------------------------------------

  function DropInternet(types: seq<string>): seq<string> {
    if types == [] then [] else
      DropInternet(types[..|types| - 1]) +
      if EqualFold(types[|types| - 1], "internet") then [] else [types[|types| - 1]]
  }

  function TypesOf(f: Field): seq<string> {
    if TYPE in f.params then f.params[TYPE] else []
  }

  // setEmailType when the email's group has a label, dropGenericType otherwise.
  function Retyped(f: Field, tag: string): Field {
    if tag != "" then f.(params := f.params[TYPE := [tag]])
    else
      var kept := DropInternet(TypesOf(f));
      f.(params := if kept == [] then f.params - {TYPE} else f.params[TYPE := kept])
  }

  // ---- Group allocation -------------------------------------------------------------

  // Names in use that the counter has still to meet.
  ghost function Ahead(used: set<string>, counter: nat): set<string> {
    set g | g in used && exists k: nat :: k >= counter && g == Item(k)
  }

  lemma AheadShrinks(used: set<string>, counter: nat)
    requires Item(counter) in used
    ensures Ahead(used, counter + 1) < Ahead(used, counter)
    ensures |Ahead(used, counter + 1)| < |Ahead(used, counter)|
  {
    assert Item(counter) in Ahead(used, counter);
    if Item(counter) in Ahead(used, counter + 1) {
      var k: nat :| k >= counter + 1 && Item(counter) == Item(k);
      ItemInjective(counter, k);
    }
    ProperSubsetSize(Ahead(used, counter + 1), Ahead(used, counter));
  }

  // The search loop: the first number from counter on whose name is free. It stops
  // because each miss uses up a name in use.
  ghost function NextFree(used: set<string>, counter: nat): (k: nat)
    ensures k >= counter && Item(k) !in used
    ensures forall j | counter <= j < k :: Item(j) in used
    decreases |Ahead(used, counter)|
  {
    if Item(counter) !in used then counter
    else
      AheadShrinks(used, counter);
      NextFree(used, counter + 1)
  }

  datatype Allocation = Allocation(emails: seq<Field>, taken: set<string>, consumed: set<string>, counter: nat)

  // The original group if no other property and no earlier email has it.
  predicate Usable(others: set<string>, a: Allocation, group: string) {
    group != "" && group !in others && group !in a.taken
  }

  ghost function Chosen(others: set<string>, a: Allocation, group: string): (r: (string, nat))
    ensures Usable(others, a, r.0)
    ensures r.0 == group <==> Usable(others, a, group)
  {
    if Usable(others, a, group) then (group, a.counter)
    else
      var k := NextFree(others + a.taken, a.counter);
      (Item(k), k + 1)
  }

  ghost function NewEmail(labels: map<string, string>, others: set<string>, a: Allocation, f: Field): Field {
    Retyped(f, LabelOf(labels, f.group)).(group := Chosen(others, a, f.group).0)
  }

  // One email: fold or clean its TYPE, keep its group if that is free, else take a new one.
  ghost function AllocateOne(labels: map<string, string>, others: set<string>, a: Allocation, f: Field): Allocation {
    Allocation(a.emails + [NewEmail(labels, others, a, f)],
               a.taken + {Chosen(others, a, f.group).0},
               if LabelOf(labels, f.group) != "" then a.consumed + {f.group} else a.consumed,
               Chosen(others, a, f.group).1)
  }

  ghost function Allocate(labels: map<string, string>, others: set<string>, emails: seq<Field>): Allocation {
    if emails == [] then Allocation([], {}, {}, 1)
    else AllocateOne(labels, others, Allocate(labels, others, emails[..|emails| - 1]), emails[|emails| - 1])
  }

  // ---- The split --------------------------------------------------------------------

  predicate SignedName(name: string) {
    name == FN || name == UID || name == EMAIL
  }

  function DeriveFN(card: Card): string {
    if ValueOf(card, N) != "" then TrimSpace(ReplaceChar(ValueOf(card, N), ';', ' ')) else "Unknown"
  }

  ghost function Emails(card: Card): Allocation {
    Allocate(LabelsOf(At(card, AB_LABEL)), NonEmailGroups(card), At(card, EMAIL))
  }

  function WithoutGroups(fields: seq<Field>, groups: set<string>): seq<Field> {
    if fields == [] then [] else
      WithoutGroups(fields[..|fields| - 1], groups) +
      if fields[|fields| - 1].group in groups then [] else [fields[|fields| - 1]]
  }

  // removeABLabels
  function RemoveLabels(card: Card, groups: set<string>): Card {
    if groups == {} || AB_LABEL !in card then card
    else
      var kept := WithoutGroups(card[AB_LABEL], groups);
      if kept == [] then card - {AB_LABEL} else card[AB_LABEL := kept]
  }

  function RoutedSigned(card: Card): Card {
    (map name | name in card && SignedName(name) :: card[name])[VERSION := [Plain("4.0")]]
  }

  function RoutedEncrypted(card: Card): Card {
    (map name | name in card && name != VERSION && !SignedName(name) :: card[name])[VERSION := [Plain("4.0")]]
  }

  function WithFN(signed: Card, card: Card): Card {
    if ValueOf(signed, FN) == "" then signed[FN := [Plain(DeriveFN(card))]] else signed
  }

  ghost function SignedPart(card: Card): Card {
    var signed := WithFN(RoutedSigned(card), card);
    if EMAIL in signed then signed[EMAIL := Emails(card).emails] else signed
  }

  ghost function EncryptedPart(card: Card): Card {
    RemoveLabels(RoutedEncrypted(card), Emails(card).consumed)
  }

  // What Cards.Merge and re-encoding make of the two parts: their union, with the one
  // VERSION line that the encoder writes.
  ghost function RoundTrip(card: Card): Card {
    SignedPart(card) + EncryptedPart(card)
  }

  // ---- Allocation is right ----------------------------------------------------------

  ghost predicate FreshGroups(emails: seq<Field>, others: set<string>) {
    && (forall i | 0 <= i < |emails| :: emails[i].group != "" && emails[i].group !in others)
    && (forall i, j | 0 <= i < j < |emails| :: emails[i].group != emails[j].group)
  }

  ghost predicate GroupsAre(emails: seq<Field>, groups: set<string>) {
    && (forall i | 0 <= i < |emails| :: emails[i].group in groups)
    && (forall g | g in groups :: exists i :: 0 <= i < |emails| && emails[i].group == g)
  }

  ghost predicate AssignedExactly(a: Allocation) {
    GroupsAre(a.emails, a.taken)
  }

  lemma {:induction false} AllocateGroups(labels: map<string, string>, others: set<string>, emails: seq<Field>)
    ensures var a := Allocate(labels, others, emails);
            && |a.emails| == |emails|
            && FreshGroups(a.emails, others) && AssignedExactly(a)
            && |a.taken| == |emails|
  {
    if emails != [] {
      var rest, f := emails[..|emails| - 1], emails[|emails| - 1];
      AllocateGroups(labels, others, rest);
      AllocateOneGroups(labels, others, Allocate(labels, others, rest), f);
    }
  }

  lemma AllocateOneGroups(labels: map<string, string>, others: set<string>, a: Allocation, f: Field)
    requires FreshGroups(a.emails, others) && AssignedExactly(a)
    ensures var b := AllocateOne(labels, others, a, f);
            && FreshGroups(b.emails, others) && AssignedExactly(b)
            && |b.taken| == |a.taken| + 1
  {
    OneMoreGroup(others, a.emails, a.taken, NewEmail(labels, others, a, f));
  }

  lemma OneMoreGroup(others: set<string>, emails: seq<Field>, taken: set<string>, e: Field)
    requires FreshGroups(emails, others) && GroupsAre(emails, taken)
    requires e.group != "" && e.group !in others && e.group !in taken
    ensures FreshGroups(emails + [e], others) && GroupsAre(emails + [e], taken + {e.group})
  {
    var b := emails + [e];
    forall i | 0 <= i < |emails| ensures b[i] == emails[i] && b[i].group in taken {
    }
    forall x | x in taken + {e.group} ensures exists i :: 0 <= i < |b| && b[i].group == x {
      if x in taken {
        var i :| 0 <= i < |emails| && emails[i].group == x;
        assert b[i].group == x;
      } else {
        assert b[|emails|].group == x;
      }
    }
  }

  // The counter never outruns the names in use: every number it passed names a group of
  // another property or of an email.
  lemma {:induction false} CounterAccounted(labels: map<string, string>, others: set<string>, emails: seq<Field>)
    ensures var a := Allocate(labels, others, emails);
            a.counter >= 1 && forall j: nat | 1 <= j < a.counter :: Item(j) in others + a.taken
  {
    if emails != [] {
      var rest := emails[..|emails| - 1];
      CounterAccounted(labels, others, rest);
      ChosenAccounted(others, Allocate(labels, others, rest), emails[|emails| - 1].group);
    }
  }

  lemma ChosenAccounted(others: set<string>, a: Allocation, group: string)
    requires a.counter >= 1 && forall j: nat | 1 <= j < a.counter :: Item(j) in others + a.taken
    ensures var (g, counter) := Chosen(others, a, group);
            counter >= 1 && forall j: nat | 1 <= j < counter :: Item(j) in others + (a.taken + {g})
  {
  }

  function ItemsBelow(counter: nat): set<string> {
    set j: nat | 1 <= j < counter :: Item(j)
  }

  lemma {:induction false} ItemsBelowSize(counter: nat)
    requires counter >= 1
    ensures |ItemsBelow(counter)| == counter - 1
  {
    if counter == 1 {
      assert ItemsBelow(1) == {};
    } else {
      ItemsBelowSize(counter - 1);
      assert ItemsBelow(counter) == ItemsBelow(counter - 1) + {Item(counter - 1)};
      if Item(counter - 1) in ItemsBelow(counter - 1) {
        var j: nat :| 1 <= j < counter - 1 && Item(j) == Item(counter - 1);
        ItemInjective(j, counter - 1);
      }
    }
  }

  // Pigeonhole: the unbounded search is bounded by the number of groups and emails.
  lemma CounterBounded(labels: map<string, string>, others: set<string>, emails: seq<Field>)
    ensures Allocate(labels, others, emails).counter <= |others| + |emails| + 1
  {
    var a := Allocate(labels, others, emails);
    AllocateGroups(labels, others, emails);
    CounterAccounted(labels, others, emails);
    ItemsBelowSize(a.counter);
    assert ItemsBelow(a.counter) <= others + a.taken;
    SubsetSize(ItemsBelow(a.counter), others + a.taken);
    UnionSize(others, a.taken);
  }

  lemma AllocateSnoc(labels: map<string, string>, others: set<string>, emails: seq<Field>, f: Field)
    ensures Allocate(labels, others, emails + [f]) == AllocateOne(labels, others, Allocate(labels, others, emails), f)
  {
    assert (emails + [f])[..|emails|] == emails;
  }

  lemma {:induction false} AllocatePrefix(labels: map<string, string>, others: set<string>, emails: seq<Field>, more: seq<Field>)
    ensures Allocate(labels, others, emails).emails <= Allocate(labels, others, emails + more).emails
    decreases |more|
  {
    if more == [] {
      assert emails + more == emails;
    } else {
      var rest, f := more[..|more| - 1], more[|more| - 1];
      AllocatePrefix(labels, others, emails, rest);
      AllocateSnoc(labels, others, emails + rest, f);
      FrontLast(more);
      Appended(emails, rest, [f]);
    }
  }

  // Emails keep their count and order; each is allocated against the ones before it.
  lemma AllocateAt(labels: map<string, string>, others: set<string>, emails: seq<Field>, i: nat)
    requires i < |emails|
    ensures var result, a := Allocate(labels, others, emails).emails, Allocate(labels, others, emails[..i]);
            |result| == |emails| && |a.emails| == i && a.emails + [NewEmail(labels, others, a, emails[i])] <= result
  {
    assert emails == emails[..i] + [emails[i]] + emails[i + 1..];
    AllocateBetween(labels, others, emails[..i], emails[i], emails[i + 1..]);
  }

  lemma AllocateBetween(labels: map<string, string>, others: set<string>, pre: seq<Field>, f: Field, post: seq<Field>)
    ensures var result, a := Allocate(labels, others, pre + [f] + post).emails, Allocate(labels, others, pre);
            |result| == |pre| + 1 + |post| && |a.emails| == |pre| && a.emails + [NewEmail(labels, others, a, f)] <= result
  {
    AllocateLength(labels, others, pre + [f] + post);
    AllocateLength(labels, others, pre);
    AllocateSnoc(labels, others, pre, f);
    AllocatePrefix(labels, others, pre + [f], post);
  }

  lemma {:induction false} AllocateLength(labels: map<string, string>, others: set<string>, emails: seq<Field>)
    ensures |Allocate(labels, others, emails).emails| == |emails|
  {
    if emails != [] {
      AllocateLength(labels, others, emails[..|emails| - 1]);
    }
  }

  // Each email in its place: its value and its parameters other than TYPE are kept, its
  // TYPE is the folded label or the old list without "internet", and its group is kept
  // exactly when no other property and no earlier email has it.
  lemma AllocateKeeps(labels: map<string, string>, others: set<string>, emails: seq<Field>, i: nat)
    requires i < |emails|
    ensures var result, f := Allocate(labels, others, emails).emails, emails[i];
            && |result| == |emails|
            && result[i].(group := "") == Retyped(f, LabelOf(labels, f.group)).(group := "")
            && (result[i].group == f.group <==> f.group != "" && f.group !in others && !HasGroup(result[..i], f.group))
  {
    AllocateAt(labels, others, emails, i);
    AllocateGroups(labels, others, emails[..i]);
    var a := Allocate(labels, others, emails[..i]);
    TakenExactly(a.emails, a.taken, emails[i].group);
    PrefixParts(a.emails, NewEmail(labels, others, a, emails[i]), Allocate(labels, others, emails).emails);
  }

  predicate HasGroup(emails: seq<Field>, group: string) {
    exists j :: 0 <= j < |emails| && emails[j].group == group
  }

  lemma TakenExactly(emails: seq<Field>, taken: set<string>, group: string)
    requires GroupsAre(emails, taken)
    ensures group in taken <==> HasGroup(emails, group)
  {
  }
}
