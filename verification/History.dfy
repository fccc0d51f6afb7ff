// Whole histories: passes, repairs, and users editing or deleting contacts in between.
module History {
  import opened Vcard
  import opened SyncModel
  import opened ContactLaws
  import opened ContactSafety
  import opened AddressBook
  import opened RacingEdits
  import opened Resync

  datatype Edit =
    | EditProton(uid: string, card: Card)
    | EditCardDAV(uid: string, card: Card)
    | RemoveProton(uid: string)
    | RemoveCardDAV(uid: string)

  // A pass, with the edits that fall between its reading the indexes and its writes; a
  // repair; or an edit between two runs.
  datatype Event =
    | Sync(order: seq<string>, env: Environment, racing: seq<Edit>)
    | Repair(targets: seq<string>, listed: bool, env: Environment)
    | User(edit: Edit)

  function Amended(w: World, e: Edit): World {
    match e
    case EditProton(uid, card) => w.(proton := w.proton[uid := card])
    case EditCardDAV(uid, card) => w.(carddav := w.carddav[uid := card])
    case RemoveProton(uid) => w.(proton := w.proton - {uid})
    case RemoveCardDAV(uid) => w.(carddav := w.carddav - {uid})
  }

  function AmendedBy(w: World, edits: seq<Edit>): World {
    if edits == [] then w else Amended(AmendedBy(w, edits[..|edits| - 1]), edits[|edits| - 1])
  }

  ghost function Apply(cfg: Config, w: World, e: Event): World {
    match e
    case Sync(order, env, racing) => RacedPass(cfg, w, AmendedBy(w, racing), order, env).world
    case Repair(targets, listed, env) => ForcedAll(cfg, w, targets, listed, env).world
    case User(edit) => Amended(w, edit)
  }

  ghost function After(cfg: Config, w: World, events: seq<Event>): World
    decreases |events|
  {
    if events == [] then w else After(cfg, Apply(cfg, w, events[0]), events[1..])
  }

  // ---- No loss of what Proton does not model ----------------------------------------

  predicate WithinProton(modelled: set<string>, e: Edit, uid: string) {
    e.EditProton? && e.uid == uid ==> Within(modelled, e.card) && Encodable(e.card)
  }

  // What may happen to one contact: users of Proton stay inside what it models; a card
  // sent to Proton by a create, or by a repair's update, is read back if its base is
  // recorded; and its CardDAV card is not edited during a pass. All else may fail or race
  // at any point, and other contacts are unconstrained.
  predicate Permitted(modelled: set<string>, e: Event, uid: string) {
    match e
    case Sync(_, env, racing) =>
      && !UnreadCreate(env(uid))
      && forall r | r in racing :: WithinProton(modelled, r, uid) && !(r.EditCardDAV? && r.uid == uid)
    case Repair(targets, _, env) => uid in targets ==> !UnreadCreate(env(uid)) && !UnreadUpdate(env(uid))
    case User(edit) => WithinProton(modelled, edit, uid)
  }

  predicate ContactOk(cfg: Config, modelled: set<string>, c: Contact) {
    WellFormed(cfg, c) && ReadBack(modelled, c)
  }

  ghost predicate ProtonOk(cfg: Config, modelled: set<string>) {
    LossyStore(cfg, modelled) && forall card :: Encodable(cfg.norm(card))
  }

  // An indexed CardDAV card has kept every property outside `modelled`.
  ghost predicate ContactKept(modelled: set<string>, c: Contact, c': Contact) {
    OnCardDAV(c) ==>
      OnCardDAV(c') && forall name | name !in modelled :: At(CardDAVCard(c'), name) == At(CardDAVCard(c), name)
  }

  lemma VisitKeepsContact(cfg: Config, modelled: set<string>, c: Contact, full: bool, out: Outcome)
    requires ContactOk(cfg, modelled, c) && ProtonOk(cfg, modelled) && !UnreadCreate(out)
    ensures var c' := VisitContact(cfg, c, full, out).contact;
            ContactOk(cfg, modelled, c') && ContactKept(modelled, c, c')
  {
    VisitStaysReadBack(cfg, modelled, c, full, out);
    if OnCardDAV(c) {
      VisitStaysEncodable(cfg, c, full, out);
      forall name | name !in modelled
        ensures At(CardDAVCard(VisitContact(cfg, c, full, out).contact), name) == At(CardDAVCard(c), name)
      {
        VisitKeepsUnmodelled(cfg, modelled, c, full, out, name);
      }
    }
    if OnProton(c, out) && OnCardDAV(c) {
      VisitBothStops(cfg, c, full, out);
    }
  }

  lemma VisitStaysEncodable(cfg: Config, c: Contact, full: bool, out: Outcome)
    requires OnCardDAV(c)
    ensures OnCardDAV(VisitContact(cfg, c, full, out).contact)
  {
    if OnProton(c, out) {
      MergedHasVersion(cfg, c);
      VisitBothStops(cfg, c, full, out);
    }
  }

  lemma ForceCopyKeeps(cfg: Config, modelled: set<string>, c: Contact, card: Card, out: Outcome)
    requires ContactOk(cfg, modelled, c) && Within(modelled, card)
    ensures var c' := ForceToCardDAV(c, card, out).contact;
            ContactOk(cfg, modelled, c') && c'.proton == c.proton
  {
  }

  lemma ForceSendKeeps(cfg: Config, modelled: set<string>, c: Contact, card: Card, out: Outcome)
    requires ContactOk(cfg, modelled, c) && ProtonOk(cfg, modelled) && !UnreadCreate(out) && !UnreadUpdate(out)
    ensures var c' := CreateAndSave(cfg, c, card, out).contact;
            ContactOk(cfg, modelled, c') && c'.carddav == c.carddav && (c.proton.Some? ==> c'.proton.Some?)
    ensures var c' := ForceUpdate(cfg, c, card, out).contact;
            ContactOk(cfg, modelled, c') && c'.carddav == c.carddav && (c.proton.Some? ==> c'.proton.Some?)
  {
  }

  lemma ForceKeepsContact(cfg: Config, modelled: set<string>, seen: Contact, c: Contact, listed: bool, out: Outcome)
    requires ContactOk(cfg, modelled, seen) && ContactOk(cfg, modelled, c) && ProtonOk(cfg, modelled)
    requires seen.proton.Some? ==> c.proton.Some?
    requires !UnreadCreate(out) && !UnreadUpdate(out)
    ensures var c' := Forced(cfg, seen, c, listed, out).contact;
            && ContactOk(cfg, modelled, c')
            && (OnCardDAV(seen) ==> ContactKept(modelled, c, c'))
            && (seen.proton.Some? ==> c'.proton.Some?)
  {
    ForceSendKeeps(cfg, modelled, c, CardDAVCard(seen), out);
    if seen.proton.Some? && !OnCardDAV(seen) {
      ForceCopyKeeps(cfg, modelled, c, if listed then ProtonCard(c) else ProtonCard(seen), out);
    }
  }

  lemma KeptTrans(modelled: set<string>, a: Contact, b: Contact, c: Contact)
    requires ContactKept(modelled, a, b) && (OnCardDAV(a) ==> ContactKept(modelled, b, c))
    ensures ContactKept(modelled, a, c)
  {
  }

  lemma AmendedAt(w: World, e: Edit, uid: string)
    ensures var c := Look(w, uid);
            Look(Amended(w, e), uid) ==
            if e.uid != uid then c
            else match e
              case EditProton(_, card) => c.(proton := Some(card))
              case EditCardDAV(_, card) => c.(carddav := Some(card))
              case RemoveProton(_) => c.(proton := None)
              case RemoveCardDAV(_) => c.(carddav := None)
  {
  }

  lemma {:induction false} RacingEditsOk(cfg: Config, modelled: set<string>, w: World, racing: seq<Edit>, uid: string)
    requires ContactOk(cfg, modelled, Look(w, uid))
    requires forall r | r in racing :: WithinProton(modelled, r, uid) && !(r.EditCardDAV? && r.uid == uid)
    ensures var c, now := Look(w, uid), Look(AmendedBy(w, racing), uid);
            ContactOk(cfg, modelled, now) && now.base == c.base && (now.carddav == c.carddav || now.carddav.None?)
  {
    if racing != [] {
      var rest, last := racing[..|racing| - 1], racing[|racing| - 1];
      assert forall r | r in rest :: r in racing;
      RacingEditsOk(cfg, modelled, w, rest, uid);
      AmendedAt(AmendedBy(w, rest), last, uid);
      assert last in racing;
    }
  }

  // Writes land alike on two contacts, part by part, or leave the part as it is.
  lemma {:induction false} LandingParts(cfg: Config, modelled: set<string>, a: Contact, b: Contact, effects: seq<Effect>)
    requires ContactOk(cfg, modelled, a) && ProtonOk(cfg, modelled)
    ensures var x, y := Landing(cfg, a, effects), Landing(cfg, b, effects);
            && (x.carddav == a.carddav || x.carddav == y.carddav)
            && (x.base == a.base || x.base == y.base)
            && (x.proton.Some? ==> Within(modelled, x.proton.value) && Encodable(x.proton.value))
  {
    if effects != [] {
      LandingParts(cfg, modelled, a, b, effects[..|effects| - 1]);
    }
  }

  lemma RacedVisitKeeps(cfg: Config, modelled: set<string>, seen: Contact, now: Contact, full: bool, out: Outcome)
    requires ContactOk(cfg, modelled, seen) && ContactOk(cfg, modelled, now) && ProtonOk(cfg, modelled)
    requires seen.base == now.base && !UnreadCreate(out)
    ensures var c' := Landing(cfg, now, VisitContact(cfg, seen, full, out).effects);
            ContactOk(cfg, modelled, c') && (c'.carddav == now.carddav || ContactKept(modelled, seen, c'))
  {
    var v := VisitContact(cfg, seen, full, out);
    VisitKeepsContact(cfg, modelled, seen, full, out);
    NoRace(cfg, seen, full, out);
    LandingParts(cfg, modelled, now, seen, v.effects);
  }

  lemma {:induction false} PassKeeps(cfg: Config, modelled: set<string>, w: World, edited: World, order: seq<string>, env: Environment, uid: string)
    requires ContactOk(cfg, modelled, Look(w, uid)) && ContactOk(cfg, modelled, Look(edited, uid)) && ProtonOk(cfg, modelled)
    requires Look(edited, uid).carddav == Look(w, uid).carddav || Look(edited, uid).carddav.None?
    requires !UnreadCreate(env(uid))
    ensures var c' := Look(RacedPass(cfg, w, edited, order, env).world, uid);
            ContactOk(cfg, modelled, c') && ContactKept(modelled, Look(edited, uid), c')
  {
    if order != [] {
      var rest, last := order[..|order| - 1], order[|order| - 1];
      PassKeeps(cfg, modelled, w, edited, rest, env, uid);
      var p := RacedPass(cfg, w, edited, rest, env);
      if !p.aborted {
        var seen, now := Look(w, last).(base := Look(p.world, last).base), Look(p.world, last);
        var c := Landing(cfg, now, VisitContact(cfg, seen, CapReached(cfg, p.created), env(last)).effects);
        LookStore(p.world, last, c, uid);
        if last == uid {
          RacedVisitKeeps(cfg, modelled, seen, now, CapReached(cfg, p.created), env(uid));
          KeptThrough(modelled, Look(edited, uid), seen, now, c);
        }
      }
    }
  }

  lemma KeptThrough(modelled: set<string>, start: Contact, seen: Contact, now: Contact, c: Contact)
    requires start.carddav == seen.carddav || start.carddav.None?
    requires ContactKept(modelled, start, now)
    requires c.carddav == now.carddav || ContactKept(modelled, seen, c)
    ensures ContactKept(modelled, start, c)
  {
  }

  lemma {:induction false} RepairKeeps(cfg: Config, modelled: set<string>, w: World, targets: seq<string>, listed: bool, env: Environment, uid: string)
    requires ContactOk(cfg, modelled, Look(w, uid)) && ProtonOk(cfg, modelled)
    requires uid in targets ==> !UnreadCreate(env(uid)) && !UnreadUpdate(env(uid))
    ensures var c' := Look(ForcedAll(cfg, w, targets, listed, env).world, uid);
            && ContactOk(cfg, modelled, c') && ContactKept(modelled, Look(w, uid), c')
            && (Look(w, uid).proton.Some? ==> c'.proton.Some?)
  {
    if targets != [] {
      var rest, last := targets[..|targets| - 1], targets[|targets| - 1];
      RepairKeeps(cfg, modelled, w, rest, listed, env, uid);
      var p := ForcedAll(cfg, w, rest, listed, env);
      if !p.aborted {
        var c := ForceIn(cfg, w, p, last, listed, env).contact;
        LookStore(p.world, last, c, uid);
        if last == uid {
          ForceKeepsContact(cfg, modelled, Look(w, uid), Look(p.world, uid), listed, env(uid));
          KeptTrans(modelled, Look(w, uid), Look(p.world, uid), c);
        }
      }
    }
  }

  // The contact as a pass or a repair finds it when it begins to write.
  function Found(w: World, e: Event, uid: string): Contact {
    Look(if e.Sync? then AmendedBy(w, e.racing) else w, uid)
  }

  // Every pass and every repair in the history leaves CardDAV's own properties of uid alone.
  ghost predicate Lossless(cfg: Config, modelled: set<string>, w: World, events: seq<Event>, uid: string)
    decreases |events|
  {
    events == [] ||
    var w' := Apply(cfg, w, events[0]);
    && (!events[0].User? ==> ContactKept(modelled, Found(w, events[0], uid), Look(w', uid)))
    && Lossless(cfg, modelled, w', events[1..], uid)
  }

  lemma EventKeeps(cfg: Config, modelled: set<string>, w: World, e: Event, uid: string)
    requires ContactOk(cfg, modelled, Look(w, uid)) && ProtonOk(cfg, modelled) && Permitted(modelled, e, uid)
    ensures var c' := Look(Apply(cfg, w, e), uid);
            ContactOk(cfg, modelled, c') && (!e.User? ==> ContactKept(modelled, Found(w, e, uid), c'))
  {
    match e
    case Sync(order, env, racing) =>
      RacingEditsOk(cfg, modelled, w, racing, uid);
      PassKeeps(cfg, modelled, w, AmendedBy(w, racing), order, env, uid);
    case Repair(targets, listed, env) => RepairKeeps(cfg, modelled, w, targets, listed, env, uid);
    case User(edit) => AmendedAt(w, edit, uid);
  }

  // Lossy safety over whole histories: through any sequence of edits, deletions, passes
  // and repairs, and through edits that race with a pass, no pass and no repair alters a
  // property of an indexed CardDAV card that Proton does not model. There are four
  // exceptions: an unread create, an unread update of a repair (ContactSafety and Resync
  // say what these cost), a CardDAV card without VERSION, which is not indexed and may be
  // overwritten, and a CardDAV edit of the same contact during the pass (RacingEdits).
  lemma {:induction false} HistoriesAreLossless(cfg: Config, modelled: set<string>, w: World, events: seq<Event>, uid: string)
    requires ContactOk(cfg, modelled, Look(w, uid)) && ProtonOk(cfg, modelled)
    requires forall e | e in events :: Permitted(modelled, e, uid)
    ensures Lossless(cfg, modelled, w, events, uid)
    ensures ContactOk(cfg, modelled, Look(After(cfg, w, events), uid))
    decreases |events|
  {
    if events != [] {
      assert events[0] in events;
      EventKeeps(cfg, modelled, w, events[0], uid);
      HistoriesAreLossless(cfg, modelled, Apply(cfg, w, events[0]), events[1..], uid);
    }
  }

  // ---- No deletion, no resurrection -------------------------------------------------

  // A pass forgets nothing: stores and database only grow.
  lemma {:induction false} PassForgetsNothing(cfg: Config, w: World, order: seq<string>, env: Environment)
    ensures var w' := Reconciled(cfg, w, order, env).world;
            w.proton.Keys <= w'.proton.Keys && w.carddav.Keys <= w'.carddav.Keys && w.db.Keys <= w'.db.Keys && w.twins <= w'.twins
  {
    if order != [] {
      var rest, last := order[..|order| - 1], order[|order| - 1];
      PassForgetsNothing(cfg, w, rest, env);
      var p := Reconciled(cfg, w, rest, env);
      if !p.aborted {
        VisitForgetsNothing(cfg, Look(p.world, last), CapReached(cfg, p.created), env(last));
      }
    }
  }

  // Known to the database and gone from Proton (or from CardDAV).
  predicate GoneFromProton(w: World, uid: string) {
    uid in w.db && uid !in w.proton
  }

  predicate GoneFromCardDAV(w: World, uid: string) {
    uid in w.db && uid !in w.carddav
  }

  // The user does not ask for uid to come back on Proton (or on CardDAV).
  predicate DoesNotRestore(e: Edit, uid: string, proton: bool) {
    match e
    case EditProton(u, _) => proton ==> u != uid
    case EditCardDAV(u, _) => !proton ==> u != uid
    case _ => true
  }

  predicate LeavesGone(e: Event, uid: string, proton: bool) {
    match e
    case Sync(_, _, racing) => forall r | r in racing :: DoesNotRestore(r, uid, proton)
    case Repair(targets, _, _) => uid !in targets
    case User(edit) => DoesNotRestore(edit, uid, proton)
  }

  predicate Gone(w: World, uid: string, proton: bool) {
    if proton then GoneFromProton(w, uid) else GoneFromCardDAV(w, uid)
  }

  lemma {:induction false} RacingStaysGone(w: World, racing: seq<Edit>, uid: string, proton: bool)
    requires Gone(w, uid, proton) && forall r | r in racing :: DoesNotRestore(r, uid, proton)
    ensures Gone(AmendedBy(w, racing), uid, proton)
  {
    if racing != [] {
      var rest, last := racing[..|racing| - 1], racing[|racing| - 1];
      assert forall r | r in rest :: r in racing;
      RacingStaysGone(w, rest, uid, proton);
      assert last in racing;
    }
  }

  // Gone when the pass began: nothing is written, whatever users do meanwhile.
  lemma {:induction false} PassSkipsGone(cfg: Config, w: World, edited: World, order: seq<string>, env: Environment, uid: string)
    requires GoneFromProton(w, uid) || GoneFromCardDAV(w, uid)
    requires Look(edited, uid).base == Look(w, uid).base
    ensures var p := RacedPass(cfg, w, edited, order, env);
            Look(p.world, uid) == Look(edited, uid) && forall t | t in p.trace :: t.0 != uid
  {
    if order != [] {
      var rest, last := order[..|order| - 1], order[|order| - 1];
      PassSkipsGone(cfg, w, edited, rest, env, uid);
      var p := RacedPass(cfg, w, edited, rest, env);
      if !p.aborted {
        var now := Look(p.world, last);
        var seen := Look(w, last).(base := now.base);
        var v := VisitContact(cfg, seen, CapReached(cfg, p.created), env(last));
        LookStore(p.world, last, Landing(cfg, now, v.effects), uid);
        if last == uid {
          NoResurrection(cfg, seen, CapReached(cfg, p.created), env(last));
          LandingNone(cfg, now);
          assert Tagged(last, v.effects) == [];
        } else {
          assert forall t | t in Tagged(last, v.effects) :: t.0 == last;
        }
      }
    }
  }

  lemma {:induction false} RacingKeepsRow(w: World, racing: seq<Edit>)
    ensures AmendedBy(w, racing).db == w.db
  {
    if racing != [] {
      RacingKeepsRow(w, racing[..|racing| - 1]);
    }
  }

  lemma EventStaysGone(cfg: Config, w: World, e: Event, uid: string, proton: bool)
    requires Gone(w, uid, proton) && LeavesGone(e, uid, proton)
    ensures Gone(Apply(cfg, w, e), uid, proton)
  {
    match e
    case Sync(order, env, racing) =>
      var edited := AmendedBy(w, racing);
      RacingStaysGone(w, racing, uid, proton);
      RacingKeepsRow(w, racing);
      PassSkipsGone(cfg, w, edited, order, env, uid);
      LookGone(edited, Apply(cfg, w, e), uid, proton);
    case Repair(targets, listed, env) =>
      ForceUntouched(cfg, w, targets, listed, env, uid);
      LookGone(w, Apply(cfg, w, e), uid, proton);
    case User(edit) =>
  }

  lemma LookGone(w: World, w': World, uid: string, proton: bool)
    requires Look(w', uid) == Look(w, uid) && Gone(w, uid, proton)
    ensures Gone(w', uid, proton)
  {
  }

  // No resurrection: a contact that was synchronised and then disappeared from a side
  // never comes back there, whatever passes run, until a user or a repair asks for it.
  lemma {:induction false} GoneStaysGone(cfg: Config, w: World, events: seq<Event>, uid: string, proton: bool)
    requires Gone(w, uid, proton)
    requires forall e | e in events :: LeavesGone(e, uid, proton)
    ensures Gone(After(cfg, w, events), uid, proton)
    decreases |events|
  {
    if events != [] {
      assert events[0] in events;
      EventStaysGone(cfg, w, events[0], uid, proton);
      GoneStaysGone(cfg, Apply(cfg, w, events[0]), events[1..], uid, proton);
    }
  }
}
