// The per-property three-way merge. Each side is compared with its own last-synced
// base, so the two bases may differ.
module ThreeWayMerge {
  import opened Sequences
  import opened Vcard
  import opened FieldEquality

  datatype Side = SideProton | SideCardDAV

  datatype Policy = PreferNewer | PreferProton | PreferCardDAV

  // Parsed REV text: an instant relative to Go's zero time, or None when no layout
  // matches. Year-0000 stamps parse to negative instants.
  type RevParser = string -> Option<int>

  function RevTime(rev: RevParser, card: Card): int {
    if At(card, REV) == [] then 0 else
      match rev(At(card, REV)[0].value)
      case Some(t) => t
      case None => 0
  }

  function NewerSide(rev: RevParser, proton: Card, carddav: Card): Side {
    if RevTime(rev, carddav) > RevTime(rev, proton) then SideCardDAV else SideProton
  }

  function WinnerFor(rev: RevParser, policy: Policy, proton: Card, carddav: Card): Side {
    match policy
    case PreferProton => SideProton
    case PreferCardDAV => SideCardDAV
    case PreferNewer => NewerSide(rev, proton, carddav)
  }

  // VERSION, UID and REV are handled outside the three-way rule.
  predicate Mergeable(name: string) {
    name != VERSION && name != UID && name != REV
  }

  // ---- Specification: one property at a time ----------------------------------------

  // The value kept for one property: pb and cb are the bases, pr and cd the current values.
  ghost function Choose(pb: seq<Field>, cb: seq<Field>, pr: seq<Field>, cd: seq<Field>, winner: Side): seq<Field> {
    if FieldsEqual(pb, pr) then
      if FieldsEqual(cb, cd) && cd == [] then pr else cd
    else if FieldsEqual(cb, cd) || FieldsEqual(pr, cd) then pr
    else if winner == SideProton then pr
    else cd
  }

  ghost predicate Clash(pb: seq<Field>, cb: seq<Field>, pr: seq<Field>, cd: seq<Field>) {
    !FieldsEqual(pb, pr) && !FieldsEqual(cb, cd) && !FieldsEqual(pr, cd)
  }

  function FirstOf(primary: seq<Field>, fallback: seq<Field>): seq<Field> {
    if primary != [] then primary else fallback
  }

  // The four cards a merge looks at: each side's base and current value.
  datatype Versions = Versions(pb: Card, cb: Card, pr: Card, cd: Card) {
    function Names(): set<string> {
      pb.Keys + cb.Keys + pr.Keys + cd.Keys
    }
  }

  ghost function ChosenAt(v: Versions, winner: Side, name: string): seq<Field> {
    Choose(At(v.pb, name), At(v.cb, name), At(v.pr, name), At(v.cd, name), winner)
  }

  ghost predicate ClashAt(v: Versions, name: string) {
    Clash(At(v.pb, name), At(v.cb, name), At(v.pr, name), At(v.cd, name))
  }

  ghost function MergedAt(rev: RevParser, v: Versions, winner: Side, name: string): seq<Field> {
    if name == UID then FirstOf(At(v.cd, UID), At(v.pr, UID))
    else if name == VERSION then FirstOf(FirstOf(At(v.cd, VERSION), At(v.pr, VERSION)), [Plain("4.0")])
    else if name == REV then
      if RevTime(rev, v.cd) > RevTime(rev, v.pr) then FirstOf(At(v.cd, REV), At(v.pr, REV))
      else FirstOf(At(v.pr, REV), At(v.cd, REV))
    else ChosenAt(v, winner, name)
  }

  ghost function Merge(rev: RevParser, v: Versions, winner: Side): Card {
    map name | name in v.Names() + {VERSION} && MergedAt(rev, v, winner, name) != []
      :: MergedAt(rev, v, winner, name)
  }

  ghost function ConflictNames(v: Versions): set<string> {
    set name | name in v.Names() && Mergeable(name) && ClashAt(v, name)
  }

  // Same properties and values, ignoring field order and vCard groups.
  ghost predicate Same(a: Card, b: Card) {
    forall name :: FieldsEqual(At(a, name), At(b, name))
  }

  // Some property that Proton models (now, or when last synced) differs from merged.
  ghost predicate Differs(merged: Card, protonCurrent: Card, protonBase: Card) {
    exists name :: name in protonCurrent.Keys + protonBase.Keys && name != VERSION
                   && !FieldsEqual(At(merged, name), At(protonCurrent, name))
  }

  // ---- The code ---------------------------------------------------------------------

  method SetIdentity(merged: Card, name: string, primary: Card, fallback: Card) returns (result: Card, found: bool)
    ensures found <==> FirstOf(At(primary, name), At(fallback, name)) != []
    ensures forall n :: At(result, n) ==
              if n == name && found then FirstOf(At(primary, name), At(fallback, name)) else At(merged, n)
    ensures (forall n :: n in merged ==> merged[n] != []) ==> forall n :: n in result ==> result[n] != []
  {
    var f := At(primary, name);
    if |f| > 0 {
      return merged[name := f], true;
    }
    f := At(fallback, name);
    if |f| > 0 {
      return merged[name := f], true;
    }
    return merged, false;
  }

  method PickValue(pb: seq<Field>, cb: seq<Field>, pr: seq<Field>, cd: seq<Field>, winner: Side)
    returns (chosen: seq<Field>, conflict: bool)
    ensures chosen == Choose(pb, cb, pr, cd, winner)
    ensures conflict == Clash(pb, cb, pr, cd)
  {
    conflict := false;
    var sameP := CompareFields(pb, pr);
    var sameC := CompareFields(cb, cd);
    if !sameP && !sameC {
      var agree := CompareFields(pr, cd);
      if agree {
        chosen := pr;
      } else {
        conflict := true;
        if winner == SideProton {
          chosen := pr;
        } else {
          chosen := cd;
        }
      }
    } else if !sameP {
      chosen := pr;
    } else if !sameC {
      chosen := cd;
    } else if |cd| > 0 {
      chosen := cd;
    } else {
      chosen := pr;
    }
  }

  // The mergeable properties among `done` have been merged; nothing else is present.
  ghost predicate MergedSoFar(v: Versions, winner: Side, merged: Card, done: set<string>) {
    && (forall name :: name in merged ==> merged[name] != [])
    && (forall name :: At(merged, name) == if name in done && Mergeable(name) then ChosenAt(v, winner, name) else [])
  }

  lemma MergedOneMore(v: Versions, winner: Side, merged: Card, done: set<string>, name: string)
    requires MergedSoFar(v, winner, merged, done)
    requires name !in done
    ensures Mergeable(name) && ChosenAt(v, winner, name) != [] ==>
              MergedSoFar(v, winner, merged[name := ChosenAt(v, winner, name)], done + {name})
    ensures !Mergeable(name) || ChosenAt(v, winner, name) == [] ==> MergedSoFar(v, winner, merged, done + {name})
  {
    var chosen := ChosenAt(v, winner, name);
    var after := merged[name := chosen];
    forall n | n != name ensures At(after, n) == At(merged, n) {}
    assert At(merged, name) == [];
  }

  ghost predicate ConflictsSoFar(v: Versions, conflicts: seq<string>, done: set<string>) {
    Lists(conflicts, set n | n in done && n in ConflictNames(v))
  }

  lemma ConflictsOneMore(v: Versions, conflicts: seq<string>, done: set<string>, name: string)
    requires ConflictsSoFar(v, conflicts, done)
    requires name !in done
    ensures name in ConflictNames(v) ==> ConflictsSoFar(v, conflicts + [name], done + {name})
    ensures name !in ConflictNames(v) ==> ConflictsSoFar(v, conflicts, done + {name})
  {
    var old_ := set n | n in done && n in ConflictNames(v);
    var new_ := set n | n in done + {name} && n in ConflictNames(v);
    assert new_ == if name in ConflictNames(v) then old_ + {name} else old_;
    assert forall n :: n in conflicts + [name] <==> n in conflicts || n == name;
  }

  // One round of the loop: merge a single property.
  method MergeOne(v: Versions, winner: Side, name: string, merged: Card, conflicts: seq<string>, ghost done: set<string>)
    returns (merged': Card, conflicts': seq<string>)
    requires name in v.Names() && name !in done
    requires MergedSoFar(v, winner, merged, done) && ConflictsSoFar(v, conflicts, done)
    ensures MergedSoFar(v, winner, merged', done + {name}) && ConflictsSoFar(v, conflicts', done + {name})
  {
    merged', conflicts' := merged, conflicts;
    MergedOneMore(v, winner, merged, done, name);
    ConflictsOneMore(v, conflicts, done, name);
    if Mergeable(name) {
      var chosen, conflict := PickValue(At(v.pb, name), At(v.cb, name), At(v.pr, name), At(v.cd, name), winner);
      if conflict {
        conflicts' := conflicts' + [name];
      }
      if |chosen| > 0 {
        merged' := merged'[name := chosen];
      }
    }
  }

  lemma NothingMerged(v: Versions, winner: Side)
    ensures MergedSoFar(v, winner, map[], {}) && ConflictsSoFar(v, [], {})
  {
  }

  lemma EverythingMerged(v: Versions, conflicts: seq<string>)
    requires ConflictsSoFar(v, conflicts, v.Names())
    ensures Lists(conflicts, ConflictNames(v))
  {
    assert (set n | n in v.Names() && n in ConflictNames(v)) == ConflictNames(v);
  }

  method MergeProperties(v: Versions, winner: Side) returns (merged: Card, conflicts: seq<string>)
    ensures MergedSoFar(v, winner, merged, v.Names())
    ensures Lists(conflicts, ConflictNames(v))
  {
    merged, conflicts := map[], [];
    ghost var done := {};
    NothingMerged(v, winner);
    var pending := v.Names();
    while pending != {}
      invariant done !! pending && done + pending == v.Names()
      invariant MergedSoFar(v, winner, merged, done)
      invariant ConflictsSoFar(v, conflicts, done)
      decreases |pending|
    {
      var name :| name in pending;
      MoveOne(done, pending, name);
      pending := pending - {name};
      merged, conflicts := MergeOne(v, winner, name, merged, conflicts, done);
      done := done + {name};
    }
    EverythingMerged(v, conflicts);
  }

  method SetUidAndVersion(v: Versions, properties: Card) returns (merged: Card)
    requires forall name :: name in properties ==> Mergeable(name) && properties[name] != []
    ensures forall name :: name in merged ==> merged[name] != []
    ensures forall name :: At(merged, name) ==
              if name == UID then FirstOf(At(v.cd, UID), At(v.pr, UID))
              else if name == VERSION then FirstOf(FirstOf(At(v.cd, VERSION), At(v.pr, VERSION)), [Plain("4.0")])
              else At(properties, name)
  {
    var found: bool;
    merged, found := SetIdentity(properties, UID, v.cd, v.pr);
    assert At(properties, UID) == [] == At(properties, VERSION);
    assert forall name :: At(merged, name) ==
             if name == UID then FirstOf(At(v.cd, UID), At(v.pr, UID)) else At(properties, name);
    merged, found := SetIdentity(merged, VERSION, v.cd, v.pr);
    if !found {
      merged := merged[VERSION := [Plain("4.0")]];
    }
  }

  method SetSpecials(rev: RevParser, v: Versions, ghost winner: Side, properties: Card) returns (merged: Card)
    requires forall name :: name in properties ==> Mergeable(name) && properties[name] != []
    ensures forall name :: name in merged ==> merged[name] != []
    ensures forall name :: At(merged, name) ==
              if Mergeable(name) then At(properties, name) else MergedAt(rev, v, winner, name)
  {
    var found: bool;
    merged := SetUidAndVersion(v, properties);
    if RevTime(rev, v.cd) > RevTime(rev, v.pr) {
      merged, found := SetIdentity(merged, REV, v.cd, v.pr);
    } else {
      merged, found := SetIdentity(merged, REV, v.pr, v.cd);
    }
  }

  // Whatever order the properties are visited in, the outcome is Merge and the reported
  // conflicts are ConflictNames, each once.
  method ThreeWay(rev: RevParser, v: Versions, winner: Side) returns (merged: Card, conflicts: seq<string>)
    ensures merged == Merge(rev, v, winner)
    ensures Lists(conflicts, ConflictNames(v))
  {
    var properties: Card;
    properties, conflicts := MergeProperties(v, winner);
    OutsideNames(v, winner);
    assert forall name :: name in properties ==> At(properties, name) == properties[name];
    merged := SetSpecials(rev, v, winner, properties);
    MergeExtensional(rev, v, winner, merged);
  }

  method ThreeWayByPolicy(rev: RevParser, v: Versions, policy: Policy) returns (merged: Card, conflicts: seq<string>)
    ensures merged == Merge(rev, v, WinnerFor(rev, policy, v.pr, v.cd))
    ensures Lists(conflicts, ConflictNames(v))
  {
    var winner: Side;
    match policy {
      case PreferProton => winner := SideProton;
      case PreferCardDAV => winner := SideCardDAV;
      case PreferNewer => winner := NewerSide(rev, v.pr, v.cd);
    }
    merged, conflicts := ThreeWay(rev, v, winner);
  }

  method EqualCards(a: Card, b: Card) returns (equal: bool)
    ensures equal == Same(a, b)
  {
    var pending := a.Keys + b.Keys;
    while pending != {}
      invariant pending <= a.Keys + b.Keys
      invariant forall n | n !in pending :: FieldsEqual(At(a, n), At(b, n))
      decreases |pending|
    {
      var name :| name in pending;
      pending := pending - {name};
      var eq := CompareFields(At(a, name), At(b, name));
      if !eq {
        return false;
      }
    }
    return true;
  }

  method ProtonRelevantDiff(merged: Card, protonCurrent: Card, protonBase: Card) returns (differs: bool)
    ensures differs == Differs(merged, protonCurrent, protonBase)
  {
    var all := protonCurrent.Keys + protonBase.Keys;
    var pending := all;
    while pending != {}
      invariant pending <= all
      invariant forall n | n in all - pending && n != VERSION :: FieldsEqual(At(merged, n), At(protonCurrent, n))
      decreases |pending|
    {
      var name :| name in pending;
      pending := pending - {name};
      if name != VERSION {
        var eq := CompareFields(At(merged, name), At(protonCurrent, name));
        if !eq {
          return true;
        }
      }
    }
    return false;
  }

  // ---- Algebra of the merge ---------------------------------------------------------

  lemma OutsideNames(v: Versions, winner: Side)
    ensures forall name :: name !in v.Names() ==> ChosenAt(v, winner, name) == []
  {
  }

  lemma MergeAt(rev: RevParser, v: Versions, winner: Side, name: string)
    ensures At(Merge(rev, v, winner), name) == MergedAt(rev, v, winner, name)
  {
    OutsideNames(v, winner);
  }

  lemma MergeAtAll(rev: RevParser, v: Versions, winner: Side)
    ensures forall name :: At(Merge(rev, v, winner), name) == MergedAt(rev, v, winner, name)
  {
    forall name { MergeAt(rev, v, winner, name); }
  }

  lemma MergeExtensional(rev: RevParser, v: Versions, winner: Side, card: Card)
    requires forall name :: name in card ==> card[name] != []
    requires forall name :: At(card, name) == MergedAt(rev, v, winner, name)
    ensures card == Merge(rev, v, winner)
  {
    MergeAtAll(rev, v, winner);
    var m := Merge(rev, v, winner);
    forall name ensures name in card <==> name in m {
      assert At(card, name) == At(m, name);
    }
    forall name | name in card ensures card[name] == m[name] {
      assert At(card, name) == At(m, name);
    }
  }
}
