// What the small steps of the card splitter mean: labels, TYPE values, derived names and
// group names, each stated without the function that computes it.
module SplitLaws {
  import opened Sequences
  import opened Strings
  import opened Vcard
  import opened CardSplit
  import opened CardNormal

  // ---- Labels -----------------------------------------------------------------------

  predicate Labels(f: Field, group: string) {
    f.group == group && group != "" && f.value != ""
  }

  // A group is labelled exactly when some entry labels it; the last one counts.
  lemma {:induction false} LabelsExactly(fields: seq<Field>, group: string) returns (last: nat)
    ensures group in LabelsOf(fields) <==> exists i :: 0 <= i < |fields| && Labels(fields[i], group)
    ensures group in LabelsOf(fields) ==>
              && last < |fields| && Labels(fields[last], group)
              && (forall j | last < j < |fields| :: !Labels(fields[j], group))
              && LabelsOf(fields)[group] == DecodeLabel(fields[last].value)
  {
    last := 0;
    if fields != [] {
      var rest, f := fields[..|fields| - 1], fields[|fields| - 1];
      last := LabelsExactly(rest, group);
      if Labels(f, group) {
        last := |fields| - 1;
      }
      forall i | 0 <= i < |rest| ensures fields[i] == rest[i] {}
      assert (exists i :: 0 <= i < |fields| && Labels(fields[i], group)) <==>
             (exists i :: 0 <= i < |rest| && Labels(rest[i], group)) || Labels(f, group) by {
        if i :| 0 <= i < |fields| && Labels(fields[i], group) {
          assert i < |rest| ==> Labels(rest[i], group);
        }
        if i :| 0 <= i < |rest| && Labels(rest[i], group) {
          assert Labels(fields[i], group);
        }
        assert Labels(f, group) ==> Labels(fields[|fields| - 1], group);
      }
    }
  }

  // Apple's wrapping comes off, and any other text is left alone.
  lemma LabelUnwraps(text: string)
    ensures DecodeLabel("_$!<" + text + ">!$_") == text
  {
    var s := "_$!<" + text + ">!$_";
    assert s[..4] == "_$!<" && s[|s| - 4..] == ">!$_";
    assert s[4..|s| - 4] == text;
  }

  lemma OtherLabelsStay(s: string)
    ensures DecodeLabel(s) == s || s == "_$!<" + DecodeLabel(s) + ">!$_"
    ensures (forall text :: s != "_$!<" + text + ">!$_") ==> DecodeLabel(s) == s
  {
    if HasPrefix(s, "_$!<") && HasSuffix(s, ">!$_") {
      MarkersDisjoint(s);
      assert s == s[..4] + s[4..|s| - 4] + s[|s| - 4..];
    }
  }

  // ---- TYPE -------------------------------------------------------------------------

  // Dropping the generic value goes value by value, so the others stay in order.
  lemma {:induction false} DropDistributes(a: seq<string>, b: seq<string>)
    ensures DropInternet(a + b) == DropInternet(a) + DropInternet(b)
    decreases |b|
  {
    if b == [] {
      assert a + b == a;
    } else {
      var rest, t := b[..|b| - 1], b[|b| - 1];
      DropDistributes(a, rest);
      assert (a + b)[..|a + b| - 1] == a + rest;
    }
  }

  lemma DropOne(t: string)
    ensures DropInternet([t]) == if EqualFold(t, "internet") then [] else [t]
  {
    assert [t][..0] == [];
  }

  lemma {:induction false} DropExactly(types: seq<string>, t: string)
    ensures multiset(DropInternet(types))[t] == if EqualFold(t, "internet") then 0 else multiset(types)[t]
  {
    if types != [] {
      DropExactly(types[..|types| - 1], t);
      FrontLast(types);
    }
  }

  // Only TYPE changes: to the label alone, or to its values without the generic one, and
  // it goes when none is left.
  lemma RetypedExactly(f: Field, tag: string, p: string)
    ensures var g := Retyped(f, tag);
            && g.value == f.value && g.group == f.group
            && (p != TYPE ==> (p in g.params <==> p in f.params) && (p in f.params ==> g.params[p] == f.params[p]))
            && (tag != "" ==> TYPE in g.params && g.params[TYPE] == [tag])
            && (tag == "" ==> TypesOf(g) == DropInternet(TypesOf(f)) && (TYPE in g.params <==> DropInternet(TypesOf(f)) != []))
  {
  }

  // ---- Labels that stay -------------------------------------------------------------

  lemma {:induction false} WithoutDistributes(a: seq<Field>, b: seq<Field>, groups: set<string>)
    ensures WithoutGroups(a + b, groups) == WithoutGroups(a, groups) + WithoutGroups(b, groups)
    decreases |b|
  {
    if b == [] {
      assert a + b == a;
    } else {
      var rest := b[..|b| - 1];
      WithoutDistributes(a, rest, groups);
      assert (a + b)[..|a + b| - 1] == a + rest;
    }
  }

  lemma WithoutOne(f: Field, groups: set<string>)
    ensures WithoutGroups([f], groups) == if f.group in groups then [] else [f]
  {
    assert [f][..0] == [];
  }

  // ---- Derived names ----------------------------------------------------------------

  lemma {:induction false} ReplaceAt(s: string, from: char, to: char)
    ensures |ReplaceChar(s, from, to)| == |s|
    ensures forall k | 0 <= k < |s| :: ReplaceChar(s, from, to)[k] == if s[k] == from then to else s[k]
  {
    if s != "" {
      ReplaceAt(s[1..], from, to);
      forall k | 0 <= k < |s| ensures ReplaceChar(s, from, to)[k] == if s[k] == from then to else s[k] {
        if k > 0 {
          assert ReplaceChar(s, from, to)[k] == ReplaceChar(s[1..], from, to)[k - 1];
        }
      }
    }
  }

  // Trimming cuts white space at both ends and nothing else.
  lemma {:induction false} TrimExactly(s: string) returns (i: nat, j: nat)
    ensures i <= j <= |s| && TrimSpace(s) == s[i..j]
    ensures forall k | 0 <= k < i || j <= k < |s| :: IsSpace(s[k])
    ensures TrimSpace(s) != "" ==> !IsSpace(s[i]) && !IsSpace(s[j - 1])
    decreases |s|
  {
    i, j := 0, |s|;
    if s != "" && IsSpace(s[0]) {
      var a, b := TrimExactly(s[1..]);
      i, j := a + 1, b + 1;
      assert s[1..][a..b] == s[i..j];
      forall k | 0 <= k < i || j <= k < |s| ensures IsSpace(s[k]) {
        assert k > 0 ==> s[k] == s[1..][k - 1];
      }
    } else if s != "" && IsSpace(s[|s| - 1]) {
      var t := s[..|s| - 1];
      i, j := TrimExactly(t);
      assert t[i..j] == s[i..j];
      forall k | 0 <= k < i || j <= k < |s| ensures IsSpace(s[k]) {
        assert k < |t| ==> s[k] == t[k];
      }
    }
  }

  // The name derived from a structured one: its text from i to j with spaces for
  // semicolons, where only spaces and semicolons are cut off at the ends.
  lemma DerivedNameExactly(card: Card) returns (i: nat, j: nat)
    ensures ValueOf(card, N) == "" ==> DeriveFN(card) == "Unknown"
    ensures var n, r := ValueOf(card, N), DeriveFN(card);
            n != "" ==>
              && i <= j <= |n| && |r| == j - i
              && (forall k | 0 <= k < |r| :: r[k] == if n[i + k] == ';' then ' ' else n[i + k])
              && (forall k | 0 <= k < i || j <= k < |n| :: IsSpace(n[k]) || n[k] == ';')
              && ';' !in r && (r != "" ==> !IsSpace(r[0]) && !IsSpace(r[|r| - 1]))
  {
    var n := ValueOf(card, N);
    var spaced := ReplaceChar(n, ';', ' ');
    ReplaceAt(n, ';', ' ');
    i, j := TrimExactly(spaced);
  }

  // ---- Groups -----------------------------------------------------------------------

  // A decimal reader: the number that a string of digits stands for.
  function ReadDecimal(s: string): Option<nat> {
    if s == "" || !('0' <= s[|s| - 1] <= '9') then None
    else
      var d := (s[|s| - 1] - '0') as nat;
      if |s| == 1 then Some(d)
      else match ReadDecimal(s[..|s| - 1])
        case None => None
        case Some(n) => Some(10 * n + d)
  }

  lemma {:induction false} DecimalReads(n: nat)
    ensures ReadDecimal(Decimal(n)) == Some(n)
    ensures n > 0 ==> Decimal(n)[0] != '0'
  {
    var s := Decimal(n);
    assert s[|s| - 1] == Digit(n % 10);
    if n >= 10 {
      DecimalReads(n / 10);
      assert s[..|s| - 1] == Decimal(n / 10);
    }
  }

  // Names of fresh groups are "item" and a number without leading zeros.
  lemma ItemReads(n: nat)
    ensures HasPrefix(Item(n), "item") && ReadDecimal(Item(n)[4..]) == Some(n)
    ensures n > 0 ==> Item(n)[4] != '0'
  {
    assert Item(n)[4..] == Decimal(n);
    DecimalReads(n);
  }

  // In the merged card no email shares its group with another email or another property.
  lemma EmailGroupsShared(card: Card, name: string, i: nat, j: nat)
    requires i < |At(RoundTrip(card), EMAIL)| && j < |At(RoundTrip(card), name)|
    requires name == EMAIL ==> i != j
    ensures At(RoundTrip(card), EMAIL)[i].group != ""
    ensures At(RoundTrip(card), EMAIL)[i].group != At(RoundTrip(card), name)[j].group
  {
    var rt := RoundTrip(card);
    EmailGroupsUnique(card);
    var e, f := At(rt, EMAIL)[i], At(rt, name)[j];
    if name != EMAIL && f.group != "" {
      assert rt[name][j].group != "";
      assert f.group in NonEmailGroups(rt);
    }
  }

  // The clear-text part holds identity and emails; all else is in the encrypted part only.
  lemma PartsHold(card: Card, name: string)
    ensures name in SignedPart(card) ==> name in {VERSION, FN, UID, EMAIL}
    ensures name in EncryptedPart(card) ==> name == VERSION || name !in {FN, UID, EMAIL}
    ensures name in card && name !in {VERSION, FN, UID, EMAIL, AB_LABEL} ==>
              name in EncryptedPart(card) && EncryptedPart(card)[name] == card[name]
  {
    EncryptedAt(card, name);
  }
}
