// Which failures end a run, in what order a visit writes, and what it writes.
module Aborting {
  import opened Vcard
  import opened ThreeWayMerge
  import opened SyncModel
  import opened ContactLaws
  import opened AddressBook
  import opened Resync

  // A CardDAV put or a database save that failed, or whose reply was lost.
  predicate Stops(e: Effect) {
    (e.Put? || e.Save?) && e.reply != Done
  }

  predicate AnyStops(effects: seq<Effect>) {
    exists e :: e in effects && Stops(e)
  }

  lemma StopsMore(effects: seq<Effect>, e: Effect)
    ensures AnyStops(effects + [e]) <==> AnyStops(effects) || Stops(e)
  {
    forall x ensures x in effects + [e] <==> x in effects || x == e {}
    if AnyStops(effects) {
      var x :| x in effects && Stops(x);
      assert x in effects + [e];
    }
    assert e in effects + [e];
  }

  lemma PushAborts(cfg: Config, c: Contact, merged: Card, out: Outcome, effects: seq<Effect>)
    requires c.proton.Some? && !AnyStops(effects)
    ensures var v := PushMerged(cfg, c, merged, out, effects); v.aborted <==> AnyStops(v.effects)
  {
    var pr := c.proton.value;
    var update := Update(merged, out.update);
    StopsMore(effects, update);
    StopsMore(effects + [update], Save(Bases(if out.updateReread then cfg.norm(merged) else pr, merged), out.save));
    StopsMore(effects, Save(Bases(pr, merged), out.save));
  }

  lemma CopyAborts(c: Contact, out: Outcome)
    requires c.proton.Some?
    ensures var v := CopyToCardDAV(c, out); v.aborted <==> AnyStops(v.effects)
  {
    var pr := c.proton.value;
    StopsMore([], Put(pr, out.put));
    assert [] + [Put(pr, out.put)] == [Put(pr, out.put)];
    StopsMore([Put(pr, out.put)], Save(Bases(pr, pr), out.save));
  }

  lemma CreateAborts(cfg: Config, c: Contact, card: Card, out: Outcome)
    ensures var v := CreateAndSave(cfg, c, card, out); v.aborted <==> AnyStops(v.effects)
  {
    var create := Create(card, out.create);
    StopsMore([], create);
    assert [] + [create] == [create];
    StopsMore([create], Save(Bases(if out.createReread then cfg.norm(card) else card, card), out.save));
  }

  lemma BothAborts(cfg: Config, c: Contact, merged: Card, out: Outcome)
    requires c.proton.Some? && c.carddav.Some?
    ensures var v := WriteBoth(cfg, c, merged, out); v.aborted <==> AnyStops(v.effects)
  {
    var put := Put(merged, out.put);
    StopsMore([], put);
    assert [] + [put] == [put];
    PushAborts(cfg, c, merged, out, []);
    if out.put == Done {
      PushAborts(cfg, c.(carddav := Some(merged)), merged, out, [put]);
    }
  }

  // A visit ends the run exactly when the database row cannot be read, or a put or a save
  // is not confirmed. A refused or lost update or create never does.
  lemma VisitAbortsExactly(cfg: Config, c: Contact, full: bool, out: Outcome)
    ensures var v := VisitContact(cfg, c, full, out);
            v.aborted <==> ((OnProton(c, out) || OnCardDAV(c)) && !out.lookup) || AnyStops(v.effects)
  {
    if OnProton(c, out) && OnCardDAV(c) {
      BothAborts(cfg, c, Merged(cfg, c), out);
    } else if OnProton(c, out) {
      CopyAborts(c, out);
    } else if OnCardDAV(c) {
      CreateAborts(cfg, c, c.carddav.value, out);
    }
  }

  // ---- Order ------------------------------------------------------------------------

  // The place of a write within a visit: the other side first, the database last.
  function Turn(e: Effect): nat {
    match e
    case Put(_, _) => 0
    case Create(_, _) => 1
    case Update(_, _) => 1
    case Save(_, _) => 2
  }

  // Each kind of write at most once, CardDAV before Proton before the database, and none
  // after a write that was not confirmed.
  predicate InTurn(effects: seq<Effect>) {
    forall i, j | 0 <= i < j < |effects| :: effects[i].reply == Done && Turn(effects[i]) < Turn(effects[j])
  }

  lemma InTurnMore(effects: seq<Effect>, e: Effect)
    requires InTurn(effects) && forall x | x in effects :: x.reply == Done && Turn(x) < Turn(e)
    ensures InTurn(effects + [e])
  {
    var all := effects + [e];
    forall i, j | 0 <= i < j < |all| ensures all[i].reply == Done && Turn(all[i]) < Turn(all[j]) {
      assert all[i] == effects[i] && effects[i] in effects;
    }
  }

  lemma PushInTurn(cfg: Config, c: Contact, merged: Card, out: Outcome, effects: seq<Effect>)
    requires c.proton.Some? && InTurn(effects) && forall x | x in effects :: x.reply == Done && Turn(x) == 0
    ensures InTurn(PushMerged(cfg, c, merged, out, effects).effects)
  {
    var pr := c.proton.value;
    var update := Update(merged, out.update);
    InTurnMore(effects, update);
    InTurnMore(effects, Save(Bases(pr, merged), out.save));
    if out.update == Done {
      forall x | x in effects + [update] ensures x.reply == Done && Turn(x) < 2 {}
      InTurnMore(effects + [update], Save(Bases(if out.updateReread then cfg.norm(merged) else pr, merged), out.save));
    }
  }

  lemma WritesInTurn(cfg: Config, c: Contact, full: bool, out: Outcome)
    ensures InTurn(VisitContact(cfg, c, full, out).effects)
  {
    if OnProton(c, out) && OnCardDAV(c) {
      var m := Merged(cfg, c);
      PushInTurn(cfg, c, m, out, []);
      if out.put == Done {
        PushInTurn(cfg, c.(carddav := Some(m)), m, out, [Put(m, out.put)]);
      }
    }
  }

  // ---- What is written --------------------------------------------------------------

  // The cards that a visit may write: a put carries the merge or, for a contact CardDAV
  // lacks, Proton's card; an update the merge; a create CardDAV's card. Each is issued
  // exactly under its guard, and answered by the reply of its kind.
  ghost predicate WriteAllowed(cfg: Config, c: Contact, full: bool, out: Outcome, e: Effect) {
    match e
    case Put(card, reply) =>
      && reply == out.put && out.lookup && OnProton(c, out)
      && if OnCardDAV(c) then card == Merged(cfg, c) && !Same(card, c.carddav.value) else c.base.None? && card == c.proton.value
    case Create(card, reply) => reply == out.create && Creating(c, full, out) && card == c.carddav.value
    case Update(card, reply) =>
      && reply == out.update && out.lookup && OnProton(c, out) && OnCardDAV(c)
      && card == Merged(cfg, c) && WroteProton(cfg, c) && (Same(card, c.carddav.value) || out.put == Done)
    case Save(bases, reply) =>
      && reply == out.save && out.lookup
      && if OnProton(c, out) && OnCardDAV(c) then
           bases == Bases(if WroteProton(cfg, c) && out.updateReread then cfg.norm(Merged(cfg, c)) else c.proton.value, Merged(cfg, c))
         else if OnProton(c, out) then bases == Bases(c.proton.value, c.proton.value)
         else OnCardDAV(c) && bases == Bases(if out.createReread then cfg.norm(c.carddav.value) else c.carddav.value, c.carddav.value)
  }

  lemma PushWritesOnly(cfg: Config, c: Contact, merged: Card, out: Outcome, effects: seq<Effect>, e: Effect)
    requires c.proton.Some?
    ensures var pr, wrote := c.proton.value, Differs(merged, c.proton.value, ProtonBase(c));
            e in PushMerged(cfg, c, merged, out, effects).effects <==>
            || e in effects
            || (wrote && e == Update(merged, out.update))
            || ((wrote ==> out.update == Done)
                && e == Save(Bases(if wrote && out.updateReread then cfg.norm(merged) else pr, merged), out.save))
  {
  }

  lemma VisitWritesOnly(cfg: Config, c: Contact, full: bool, out: Outcome, e: Effect)
    ensures e in VisitContact(cfg, c, full, out).effects ==> WriteAllowed(cfg, c, full, out, e)
    ensures WriteAllowed(cfg, c, full, out, e) && !e.Save? ==> e in VisitContact(cfg, c, full, out).effects
  {
    if OnProton(c, out) && OnCardDAV(c) {
      var m := Merged(cfg, c);
      PushWritesOnly(cfg, c, m, out, [], e);
      PushWritesOnly(cfg, c.(carddav := Some(m)), m, out, [Put(m, out.put)], e);
    }
  }

  // ---- Whole runs -------------------------------------------------------------------

  predicate Answers(out: Outcome) {
    out.lookup && out.put == Done && out.save == Done
  }

  lemma AnsweredVisitGoesOn(cfg: Config, c: Contact, full: bool, out: Outcome)
    requires Answers(out)
    ensures !VisitContact(cfg, c, full, out).aborted
  {
    VisitAbortsExactly(cfg, c, full, out);
    var v := VisitContact(cfg, c, full, out);
    if AnyStops(v.effects) {
      var e :| e in v.effects && Stops(e);
      VisitWritesOnly(cfg, c, full, out, e);
    }
  }

  // A pass whose lookups, puts and saves succeed visits everyone, whatever becomes of its
  // updates, creates and re-reads.
  lemma {:induction false} AnsweredPassFinishes(cfg: Config, w: World, order: seq<string>, env: Environment)
    requires forall uid | uid in order :: Answers(env(uid))
    ensures !Reconciled(cfg, w, order, env).aborted
  {
    if order != [] {
      var rest, last := order[..|order| - 1], order[|order| - 1];
      AnsweredPassFinishes(cfg, w, rest, env);
      var p := Reconciled(cfg, w, rest, env);
      AnsweredVisitGoesOn(cfg, Look(p.world, last), CapReached(cfg, p.created), env(last));
    }
  }

  // A run that has ended visits nobody else.
  lemma {:induction false} EndedPassStops(cfg: Config, w: World, order: seq<string>, more: seq<string>, env: Environment)
    requires Reconciled(cfg, w, order, env).aborted
    ensures Reconciled(cfg, w, order + more, env) == Reconciled(cfg, w, order, env)
    decreases |more|
  {
    if more == [] {
      assert order + more == order;
    } else {
      var rest := more[..|more| - 1];
      EndedPassStops(cfg, w, order, rest, env);
      assert (order + more)[..|order + more| - 1] == order + rest;
    }
  }

  // ---- Repairs ----------------------------------------------------------------------

  predicate SaveFails(effects: seq<Effect>) {
    exists e :: e in effects && e.Save? && e.reply != Done
  }

  // A repair goes on after every failure but that of recording a base.
  lemma ForcedAbortsExactly(cfg: Config, seen: Contact, c: Contact, listed: bool, out: Outcome)
    ensures var v := Forced(cfg, seen, c, listed, out);
            && (v.aborted <==> SaveFails(v.effects))
            && InTurn(v.effects)
  {
    var v := Forced(cfg, seen, c, listed, out);
    if |v.effects| == 2 {
      assert v.effects[1] in v.effects;
    }
  }

  // What a repair writes, and for whom: Proton's card to a contact CardDAV lacks, CardDAV's
  // card to every other.
  lemma ForcedWrites(cfg: Config, seen: Contact, c: Contact, listed: bool, out: Outcome)
    ensures var v := Forced(cfg, seen, c, listed, out);
            var onProton := seen.proton.Some? && (listed || out.fetch);
            && (v.effects == [] <==> !OnCardDAV(seen) && !(seen.proton.Some? && out.fetch))
            && (v.effects != [] && !OnCardDAV(seen) ==> v.effects[0] == Put(if listed then ProtonCard(c) else ProtonCard(seen), out.put))
            && (OnCardDAV(seen) && onProton ==> v.effects[0] == Update(CardDAVCard(seen), out.update))
            && (OnCardDAV(seen) && !onProton ==> v.effects[0] == Create(CardDAVCard(seen), out.create))
  {
  }

  lemma {:induction false} SavedRepairFinishes(cfg: Config, w: World, targets: seq<string>, listed: bool, env: Environment)
    requires forall uid | uid in targets :: env(uid).save == Done
    ensures !ForcedAll(cfg, w, targets, listed, env).aborted
  {
    if targets != [] {
      var rest, last := targets[..|targets| - 1], targets[|targets| - 1];
      SavedRepairFinishes(cfg, w, rest, listed, env);
      var p := ForcedAll(cfg, w, rest, listed, env);
      ForcedAbortsExactly(cfg, Look(w, last), Look(p.world, last), listed, env(last));
      ForcedSaves(cfg, Look(w, last), Look(p.world, last), listed, env(last));
    }
  }

  lemma ForcedSaves(cfg: Config, seen: Contact, c: Contact, listed: bool, out: Outcome)
    ensures forall e | e in Forced(cfg, seen, c, listed, out).effects && e.Save? :: e.reply == out.save
  {
  }

  lemma {:induction false} EndedRepairStops(cfg: Config, w: World, targets: seq<string>, more: seq<string>, listed: bool, env: Environment)
    requires ForcedAll(cfg, w, targets, listed, env).aborted
    ensures ForcedAll(cfg, w, targets + more, listed, env) == ForcedAll(cfg, w, targets, listed, env)
    decreases |more|
  {
    if more == [] {
      assert targets + more == targets;
    } else {
      var rest := more[..|more| - 1];
      EndedRepairStops(cfg, w, targets, rest, listed, env);
      assert (targets + more)[..|targets + more| - 1] == targets + rest;
    }
  }
}
