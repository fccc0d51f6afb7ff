// Algebra of the three-way merge that the synchroniser's guarantees rest on.
module MergeLaws {
  import opened Vcard
  import opened FieldEquality
  import opened ThreeWayMerge

  // The documented rules, property by property: a change on one side wins, including a
  // deletion; the same change on both sides is taken; an unchanged property is kept.
  lemma MergeRules(rev: RevParser, v: Versions, winner: Side, name: string)
    requires Mergeable(name)
    ensures var kept, pr, cd := At(Merge(rev, v, winner), name), At(v.pr, name), At(v.cd, name);
            var editedP, editedC := !FieldsEqual(At(v.pb, name), pr), !FieldsEqual(At(v.cb, name), cd);
            && (editedP && !editedC ==> kept == pr)
            && (editedC && !editedP ==> kept == cd)
            && (FieldsEqual(pr, cd) ==> FieldsEqual(kept, pr) && FieldsEqual(kept, cd))
            && (name in ConflictNames(v) ==> kept == if winner == SideProton then pr else cd)
            && (!editedP && !editedC ==> kept == FirstOf(cd, pr))
            && (name in ConflictNames(v) <==> editedP && editedC && !FieldsEqual(pr, cd))
  {
    MergeAt(rev, v, winner, name);
  }

  lemma ChoiceMatters(pb: seq<Field>, cb: seq<Field>, pr: seq<Field>, cd: seq<Field>)
    ensures Clash(pb, cb, pr, cd) <==>
            !FieldsEqual(Choose(pb, cb, pr, cd, SideProton), Choose(pb, cb, pr, cd, SideCardDAV))
  {
  }

  // The reported conflicts are exactly the properties on which the choice of winner matters.
  lemma ConflictsExact(rev: RevParser, v: Versions, name: string)
    ensures name in ConflictNames(v) <==>
            !FieldsEqual(At(Merge(rev, v, SideProton), name), At(Merge(rev, v, SideCardDAV), name))
  {
    MergeAt(rev, v, SideProton, name);
    MergeAt(rev, v, SideCardDAV, name);
    ChoiceMatters(At(v.pb, name), At(v.cb, name), At(v.pr, name), At(v.cd, name));
  }

  lemma NoConflictNoWinner(rev: RevParser, v: Versions)
    ensures ConflictNames(v) == {} <==> Merge(rev, v, SideProton) == Merge(rev, v, SideCardDAV)
  {
    MergeAtAll(rev, v, SideProton);
    MergeAtAll(rev, v, SideCardDAV);
    if ConflictNames(v) == {} {
      forall name ensures MergedAt(rev, v, SideProton, name) == MergedAt(rev, v, SideCardDAV, name) {
        assert name !in ConflictNames(v);
      }
      MergeExtensional(rev, v, SideCardDAV, Merge(rev, v, SideProton));
    } else {
      var name :| name in ConflictNames(v);
      ConflictsExact(rev, v, name);
    }
  }

  // ---- Retrying ---------------------------------------------------------------------

  ghost function PolicyMerge(rev: RevParser, policy: Policy, v: Versions): Card {
    Merge(rev, v, WinnerFor(rev, policy, v.pr, v.cd))
  }

  // The only way a retry can change its mind: CardDAV, with no REV at all, beats a Proton
  // REV from before Go's zero time; the merge then carries Proton's REV.
  ghost predicate WinnerFlips(rev: RevParser, policy: Policy, v: Versions) {
    policy == PreferNewer && At(v.cd, REV) == [] && RevTime(rev, v.pr) < 0 && ConflictNames(v) != {}
  }

  lemma RetryAt(rev: RevParser, v: Versions, w: Side, w': Side, name: string)
    requires Mergeable(name)
    requires name in ConflictNames(v) ==> w == w'
    ensures At(Merge(rev, v.(cd := Merge(rev, v, w)), w'), name) == At(Merge(rev, v, w), name)
  {
    MergeAt(rev, v, w, name);
    MergeAt(rev, v.(cd := Merge(rev, v, w)), w', name);
  }

  lemma RetryRev(rev: RevParser, v: Versions, w: Side)
    ensures var m := Merge(rev, v, w);
            && (NewerSide(rev, v.pr, m) == NewerSide(rev, v.pr, v.cd) || (At(v.cd, REV) == [] && RevTime(rev, v.pr) < 0))
            && (At(v.cd, REV) == [] ==> NewerSide(rev, v.pr, m) == SideProton)
            && MergedAt(rev, v.(cd := m), w, REV) == At(m, REV)
  {
    MergeAt(rev, v, w, REV);
  }

  lemma FlippedName(rev: RevParser, policy: Policy, v: Versions) returns (name: string)
    requires WinnerFlips(rev, policy, v)
    ensures var m := PolicyMerge(rev, policy, v);
            !FieldsEqual(At(m, name), At(PolicyMerge(rev, policy, v.(cd := m)), name))
  {
    name :| name in ConflictNames(v);
    var m := PolicyMerge(rev, policy, v);
    RetryRev(rev, v, SideCardDAV);
    MergeAt(rev, v, SideCardDAV, name);
    MergeAt(rev, v.(cd := m), SideProton, name);
  }

  // Once the merge result has reached CardDAV, merging again gives the same result -
  // for all policies, and for exactly the inputs whose winner does not flip.
  lemma RetryAbsorbed(rev: RevParser, policy: Policy, v: Versions)
    ensures var m := PolicyMerge(rev, policy, v);
            PolicyMerge(rev, policy, v.(cd := m)) == m <==> !WinnerFlips(rev, policy, v)
  {
    var w := WinnerFor(rev, policy, v.pr, v.cd);
    var m := Merge(rev, v, w);
    var again := v.(cd := m);
    var w' := WinnerFor(rev, policy, v.pr, m);
    RetryRev(rev, v, w);
    MergeAtAll(rev, v, w);
    if WinnerFlips(rev, policy, v) {
      var name := FlippedName(rev, policy, v);
    } else {
      forall name ensures At(m, name) == MergedAt(rev, again, w', name) {
        if Mergeable(name) {
          RetryAt(rev, v, w, w', name);
          MergeAt(rev, again, w', name);
        }
      }
      assert forall name :: name in m ==> m[name] != [];
      MergeExtensional(rev, again, w', m);
    }
  }

  // ---- Who wins ---------------------------------------------------------------------

  // Conflicts go to the side the policy names: to CardDAV if it is preferred, or if the
  // newer card is and CardDAV's REV is strictly later; otherwise to Proton.
  lemma PolicyDecides(rev: RevParser, policy: Policy, v: Versions, name: string)
    requires name in ConflictNames(v)
    ensures At(PolicyMerge(rev, policy, v), name) ==
            if policy == PreferCardDAV || (policy == PreferNewer && RevTime(rev, v.cd) > RevTime(rev, v.pr))
            then At(v.cd, name) else At(v.pr, name)
  {
    MergeAt(rev, v, WinnerFor(rev, policy, v.pr, v.cd), name);
  }

  // The instant of a card is that of its first REV text, and the zero time without one.
  lemma RevTimeExactly(rev: RevParser, card: Card, text: string, later: seq<Field>)
    ensures At(card, REV) == [] ==> RevTime(rev, card) == 0
    ensures At(card, REV) == [Plain(text)] + later ==>
              RevTime(rev, card) == if rev(text) == None then 0 else rev(text).value
  {
  }

  // Under prefer-newer, cards of different instants: every conflicting value comes from the
  // newer card, and so does the merged REV if that card has one.
  lemma NewerCardWins(rev: RevParser, v: Versions, name: string)
    requires name in ConflictNames(v) && RevTime(rev, v.cd) != RevTime(rev, v.pr)
    ensures var m := PolicyMerge(rev, PreferNewer, v);
            var newer := if RevTime(rev, v.cd) > RevTime(rev, v.pr) then v.cd else v.pr;
            At(m, name) == At(newer, name) && (At(newer, REV) != [] ==> At(m, REV) == At(newer, REV))
  {
    PolicyDecides(rev, PreferNewer, v, name);
    MergeAt(rev, v, WinnerFor(rev, PreferNewer, v.pr, v.cd), REV);
  }

  // UID and VERSION are CardDAV's, or else Proton's, whoever wins; VERSION is never missing.
  lemma IdentityKept(rev: RevParser, v: Versions, winner: Side, name: string)
    requires name == UID || name == VERSION
    ensures var kept := At(Merge(rev, v, winner), name);
            && (At(v.cd, name) != [] ==> kept == At(v.cd, name))
            && (At(v.cd, name) == [] && At(v.pr, name) != [] ==> kept == At(v.pr, name))
            && (At(v.cd, name) == [] && At(v.pr, name) == [] ==> kept == if name == VERSION then [Plain("4.0")] else [])
  {
    MergeAt(rev, v, winner, name);
  }

  // Such an input: Proton stamped with year zero, CardDAV without a stamp, one conflict.
  function YearZero(uid: string, proton: string, carddav: string): Versions {
    Versions(NO_CARD, NO_CARD,
             map[VERSION := [Plain("4.0")], UID := [Plain(uid)], REV := [Plain("00000101")], "NOTE" := [Plain(proton)]],
             map[VERSION := [Plain("4.0")], UID := [Plain(uid)], "NOTE" := [Plain(carddav)]])
  }

  // The first merge keeps CardDAV's note, the retry keeps Proton's.
  lemma YearZeroFlips(rev: RevParser, uid: string, proton: string, carddav: string)
    requires rev("00000101").Some? && rev("00000101").value < 0
    requires proton != carddav && NUL !in proton && NUL !in carddav
    ensures var v := YearZero(uid, proton, carddav);
            var m := PolicyMerge(rev, PreferNewer, v);
            && WinnerFlips(rev, PreferNewer, v)
            && At(m, "NOTE") == [Plain(carddav)]
            && At(PolicyMerge(rev, PreferNewer, v.(cd := m)), "NOTE") == [Plain(proton)]
  {
    var v := YearZero(uid, proton, carddav);
    PlainsDiffer(proton, carddav);
    assert ClashAt(v, "NOTE") && "NOTE" in v.Names();
    MergeAt(rev, v, SideCardDAV, "NOTE");
    MergeAt(rev, v, SideCardDAV, REV);
    var again := v.(cd := PolicyMerge(rev, PreferNewer, v));
    MergeAt(rev, again, SideProton, "NOTE");
  }

  lemma PlainsDiffer(a: string, b: string)
    requires a != b && NUL !in a && NUL !in b
    ensures !FieldsEqual([Plain(a)], [Plain(b)]) && !FieldsEqual([], [Plain(a)]) && !FieldsEqual([], [Plain(b)])
  {
    KeyIdentifies(Plain(a), Plain(b));
    assert Keys([Plain(a)]) == [Key(Plain(a))] && Keys([Plain(b)]) == [Key(Plain(b))];
    assert Key(Plain(a)) in KeyBag([Plain(a)]);
  }

  // ---- Lossiness and stability ------------------------------------------------------

  // A property Proton has now and had at the last sync neither way is CardDAV's alone.
  lemma UnmodelledKept(rev: RevParser, v: Versions, winner: Side, name: string)
    requires At(v.pb, name) == [] && At(v.pr, name) == []
    requires name == VERSION ==> At(v.cd, VERSION) != []
    ensures At(Merge(rev, v, winner), name) == At(v.cd, name)
  {
    MergeAt(rev, v, winner, name);
  }

  // A property recorded in Proton's base that Proton never kept reads as a deletion.
  lemma PhantomBaseDeletes(rev: RevParser, v: Versions, winner: Side, name: string)
    requires Mergeable(name)
    requires At(v.pb, name) != [] && At(v.pr, name) == [] && FieldsEqual(At(v.cb, name), At(v.cd, name))
    ensures At(Merge(rev, v, winner), name) == []
  {
    MergeAt(rev, v, winner, name);
  }

  lemma ChooseSettled(pb: seq<Field>, cb: seq<Field>, pr: seq<Field>, cd: seq<Field>, winner: Side)
    requires FieldsEqual(cd, pr) || (pb == [] && pr == [])
    ensures FieldsEqual(Choose(pb, cb, pr, cd, winner), cd)
  {
  }

  lemma SettledAt(rev: RevParser, v: Versions, winner: Side, name: string)
    requires !Differs(v.cd, v.pr, v.pb) && At(v.cd, VERSION) != []
    ensures FieldsEqual(At(Merge(rev, v, winner), name), At(v.cd, name))
  {
    MergeAt(rev, v, winner, name);
    if name != VERSION {
      AgreedAt(v, name);
      ChooseSettled(At(v.pb, name), At(v.cb, name), At(v.pr, name), At(v.cd, name), winner);
    }
  }

  lemma AgreedAt(v: Versions, name: string)
    requires !Differs(v.cd, v.pr, v.pb) && name != VERSION
    ensures FieldsEqual(At(v.cd, name), At(v.pr, name)) || (At(v.pb, name) == [] && At(v.pr, name) == [])
  {
    if name in v.pr || name in v.pb {
      assert name in v.pr.Keys + v.pb.Keys;
    }
  }

  // Merging leaves CardDAV's value of a property as it is: the two sides agree; or only
  // CardDAV counts as changed, or neither does and CardDAV has a value; or both count as
  // changed and CardDAV wins.
  ghost predicate ValueStands(pb: seq<Field>, cb: seq<Field>, pr: seq<Field>, cd: seq<Field>, winner: Side) {
    || FieldsEqual(pr, cd)
    || (FieldsEqual(pb, pr) && !(FieldsEqual(cb, cd) && cd == []))
    || (!FieldsEqual(pb, pr) && !FieldsEqual(cb, cd) && winner == SideCardDAV)
  }

  ghost predicate Stands(rev: RevParser, v: Versions, winner: Side, name: string) {
    var pr, cd := At(v.pr, name), At(v.cd, name);
    if name == VERSION then true
    else if name == UID then cd != [] || pr == []
    else if name == REV then
      FieldsEqual(pr, cd) || pr == [] || (cd != [] && RevTime(rev, v.cd) > RevTime(rev, v.pr))
    else ValueStands(At(v.pb, name), At(v.cb, name), pr, cd, winner)
  }

  lemma ChoiceStands(pb: seq<Field>, cb: seq<Field>, pr: seq<Field>, cd: seq<Field>, winner: Side)
    ensures ValueStands(pb, cb, pr, cd, winner) <==> FieldsEqual(Choose(pb, cb, pr, cd, winner), cd)
  {
  }

  lemma StandsExactly(rev: RevParser, v: Versions, winner: Side, name: string)
    requires At(v.cd, VERSION) != []
    ensures Stands(rev, v, winner, name) <==> FieldsEqual(At(Merge(rev, v, winner), name), At(v.cd, name))
  {
    MergeAt(rev, v, winner, name);
    if Mergeable(name) {
      ChoiceStands(At(v.pb, name), At(v.cb, name), At(v.pr, name), At(v.cd, name), winner);
    } else {
      IdentityStands(rev, v, winner, name);
    }
  }

  lemma IdentityStands(rev: RevParser, v: Versions, winner: Side, name: string)
    requires At(v.cd, VERSION) != [] && !Mergeable(name)
    ensures Stands(rev, v, winner, name) <==> FieldsEqual(MergedAt(rev, v, winner, name), At(v.cd, name))
  {
    assert FieldsEqual(At(v.cd, name), At(v.cd, name));
  }

  lemma AllStandExactly(rev: RevParser, v: Versions, winner: Side)
    requires At(v.cd, VERSION) != []
    ensures (forall name :: Stands(rev, v, winner, name)) <==> Same(Merge(rev, v, winner), v.cd)
  {
    forall name ensures Stands(rev, v, winner, name) <==> FieldsEqual(At(Merge(rev, v, winner), name), At(v.cd, name)) {
      StandsExactly(rev, v, winner, name);
    }
  }

  // Bases that read the same merge the same.
  lemma ChoiceIgnoresEqualBase(pb: seq<Field>, cb: seq<Field>, cb': seq<Field>, pr: seq<Field>, cd: seq<Field>, winner: Side)
    requires FieldsEqual(cb, cb')
    ensures Choose(pb, cb, pr, cd, winner) == Choose(pb, cb', pr, cd, winner)
    ensures ValueStands(pb, cb, pr, cd, winner) <==> ValueStands(pb, cb', pr, cd, winner)
  {
  }

  lemma BaseIgnoredAt(rev: RevParser, v: Versions, base: Card, winner: Side, name: string)
    requires FieldsEqual(At(v.cb, name), At(base, name))
    ensures MergedAt(rev, v.(cb := base), winner, name) == MergedAt(rev, v, winner, name)
    ensures Stands(rev, v.(cb := base), winner, name) <==> Stands(rev, v, winner, name)
  {
    ChoiceIgnoresEqualBase(At(v.pb, name), At(v.cb, name), At(base, name), At(v.pr, name), At(v.cd, name), winner);
  }

  lemma MergeIgnoresEqualBase(rev: RevParser, v: Versions, base: Card, winner: Side)
    requires Same(v.cb, base)
    ensures Merge(rev, v.(cb := base), winner) == Merge(rev, v, winner)
    ensures forall name :: Stands(rev, v.(cb := base), winner, name) <==> Stands(rev, v, winner, name)
  {
    var m := Merge(rev, v, winner);
    forall name ensures At(m, name) == MergedAt(rev, v.(cb := base), winner, name)
                ensures Stands(rev, v.(cb := base), winner, name) <==> Stands(rev, v, winner, name)
    {
      MergeAt(rev, v, winner, name);
      BaseIgnoredAt(rev, v, base, winner, name);
    }
    MergeExtensional(rev, v.(cb := base), winner, m);
  }

  // The merge has nothing to write to either side exactly when CardDAV already agrees
  // with Proton on every property Proton models - whatever CardDAV's base says.
  lemma NothingToWriteExact(rev: RevParser, v: Versions, winner: Side)
    requires At(v.cd, VERSION) != []
    ensures var m := Merge(rev, v, winner);
            Same(m, v.cd) && !Differs(m, v.pr, v.pb) <==> !Differs(v.cd, v.pr, v.pb)
  {
    var m := Merge(rev, v, winner);
    if !Differs(v.cd, v.pr, v.pb) {
      forall name { SettledAt(rev, v, winner, name); }
      assert Same(m, v.cd);
      DiffersRespectsSame(m, v.cd, v.pr, v.pb);
    }
    if Same(m, v.cd) {
      DiffersRespectsSame(m, v.cd, v.pr, v.pb);
    }
  }

  lemma DiffersRespectsSame(a: Card, b: Card, current: Card, base: Card)
    requires Same(a, b)
    ensures Differs(a, current, base) == Differs(b, current, base)
  {
    assert forall name :: FieldsEqual(At(a, name), At(b, name));
  }
}
