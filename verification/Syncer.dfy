// The synchroniser as the program runs it: an object whose methods write the two stores
// and the database, each write answered by the environment.
module Syncer {
  import opened Sequences
  import opened Vcard
  import opened ThreeWayMerge
  import opened SyncModel
  import opened ContactLaws
  import opened AddressBook
  import opened Resync

  lemma StoreStore(w: World, uid: string, c: Contact, d: Contact)
    ensures Store(Store(w, uid, c), uid, d) == Store(w, uid, d)
  {
    forall other ensures Look(Store(Store(w, uid, c), uid, d), other) == Look(Store(w, uid, d), other) {
      LookStore(w, uid, c, other);
      LookStore(w, uid, d, other);
      LookStore(Store(w, uid, c), uid, d, other);
    }
    WorldsEqual(Store(Store(w, uid, c), uid, d), Store(w, uid, d));
  }

  lemma StoreLook(w: World, uid: string)
    ensures Store(w, uid, Look(w, uid)) == w
  {
    forall other ensures Look(Store(w, uid, Look(w, uid)), other) == Look(w, other) {
      LookStore(w, uid, Look(w, uid), other);
    }
    WorldsEqual(Store(w, uid, Look(w, uid)), w);
  }

  // One write to one contact, seen in the store it lands in.
  lemma StorePut(w: World, uid: string, c: Contact, card: Card)
    ensures var s := Store(w, uid, c); s.(carddav := s.carddav[uid := card]) == Store(w, uid, c.(carddav := Some(card)))
  {
    var s := Store(w, uid, c);
    forall other ensures Look(s.(carddav := s.carddav[uid := card]), other) == Look(Store(w, uid, c.(carddav := Some(card))), other) {
      LookStore(w, uid, c, other);
      LookStore(w, uid, c.(carddav := Some(card)), other);
    }
    WorldsEqual(s.(carddav := s.carddav[uid := card]), Store(w, uid, c.(carddav := Some(card))));
  }

  lemma StoreSend(w: World, uid: string, c: Contact, card: Card)
    ensures var s := Store(w, uid, c); s.(proton := s.proton[uid := card]) == Store(w, uid, c.(proton := Some(card)))
  {
    var s := Store(w, uid, c);
    forall other ensures Look(s.(proton := s.proton[uid := card]), other) == Look(Store(w, uid, c.(proton := Some(card))), other) {
      LookStore(w, uid, c, other);
      LookStore(w, uid, c.(proton := Some(card)), other);
    }
    WorldsEqual(s.(proton := s.proton[uid := card]), Store(w, uid, c.(proton := Some(card))));
  }

  lemma StoreSave(w: World, uid: string, c: Contact, bases: Bases)
    ensures var s := Store(w, uid, c); s.(db := s.db[uid := bases]) == Store(w, uid, c.(base := Some(bases)))
  {
    var s := Store(w, uid, c);
    forall other ensures Look(s.(db := s.db[uid := bases]), other) == Look(Store(w, uid, c.(base := Some(bases))), other) {
      LookStore(w, uid, c, other);
      LookStore(w, uid, c.(base := Some(bases)), other);
    }
    WorldsEqual(s.(db := s.db[uid := bases]), Store(w, uid, c.(base := Some(bases))));
  }

  lemma StoreCreate(w: World, uid: string, cfg: Config, c: Contact, card: Card)
    ensures var s := Store(w, uid, c);
            (if uid in s.proton then s.(twins := s.twins + {uid}) else s.(proton := s.proton[uid := cfg.norm(card)]))
            == Store(w, uid, WithCreated(cfg, c, card))
  {
    var s := Store(w, uid, c);
    LookStore(w, uid, c, uid);
    if uid in s.proton {
      forall other ensures Look(s.(twins := s.twins + {uid}), other) == Look(Store(w, uid, c.(twin := true)), other) {
        LookStore(w, uid, c, other);
        LookStore(w, uid, c.(twin := true), other);
      }
      WorldsEqual(s.(twins := s.twins + {uid}), Store(w, uid, c.(twin := true)));
    } else {
      StoreSend(w, uid, c, cfg.norm(card));
    }
  }

  lemma TaggedTwo(uid: string, e: Effect, f: Effect)
    ensures Tagged(uid, [e]) == [(uid, e)]
    ensures Tagged(uid, [e, f]) == [(uid, e), (uid, f)]
  {
  }

  lemma PushPrefix(cfg: Config, c: Contact, merged: Card, out: Outcome, e: Effect, uid: string)
    requires c.proton.Some?
    ensures var v, v' := PushMerged(cfg, c, merged, out, []), PushMerged(cfg, c, merged, out, [e]);
            && v'.contact == v.contact && v'.aborted == v.aborted
            && Tagged(uid, v'.effects) == [(uid, e)] + Tagged(uid, v.effects)
  {
    var v, v' := PushMerged(cfg, c, merged, out, []), PushMerged(cfg, c, merged, out, [e]);
    assert v'.effects == [e] + v.effects;
  }

  lemma StepOn(cfg: Config, w: World, order: seq<string>, env: Environment, uid: string)
    ensures Reconciled(cfg, w, order + [uid], env) == Step(cfg, Reconciled(cfg, w, order, env), uid, env)
  {
    assert (order + [uid])[..|order|] == order;
  }

  ghost predicate Visited(order: seq<string>, done: set<string>) {
    Distinct(order) && forall uid :: uid in order <==> uid in done
  }

  lemma VisitedMore(order: seq<string>, all: set<string>, pending: set<string>, uid: string)
    requires Visited(order, all - pending) && uid in pending && pending <= all
    ensures Visited(order + [uid], all - (pending - {uid}))
    ensures uid !in order && |pending - {uid}| < |pending|
  {
    assert forall u :: u in order + [uid] <==> u in order || u == uid;
  }

  lemma IndexedIsUnion(w: World, env: Environment)
    ensures Indexed(w, env) == ReadableProton(w, env).Keys + EncodableCardDAV(w).Keys
  {
  }

  // The two indexes, as read at the start of a pass.
  function ReadableProton(w: World, env: Environment): map<string, Card> {
    map uid | uid in w.proton && env(uid).fetch :: w.proton[uid]
  }

  function EncodableCardDAV(w: World): map<string, Card> {
    map uid | uid in w.carddav && Encodable(w.carddav[uid]) :: w.carddav[uid]
  }

  lemma IndexesCurrent(w: World, now: World, env: Environment, uid: string)
    requires Look(now, uid) == Look(w, uid)
    ensures uid in ReadableProton(w, env) <==> OnProton(Look(now, uid), env(uid))
    ensures uid in EncodableCardDAV(w) <==> OnCardDAV(Look(now, uid))
    ensures uid in ReadableProton(w, env) ==> uid in now.proton && ReadableProton(w, env)[uid] == now.proton[uid]
    ensures uid in EncodableCardDAV(w) ==> uid in now.carddav && EncodableCardDAV(w)[uid] == now.carddav[uid]
  {
  }

  function MetaIndex(w: World, listed: bool, env: Environment): map<string, Option<Card>> {
    if listed then map uid | uid in w.proton :: None
    else map uid | uid in w.proton && env(uid).fetch :: Some(w.proton[uid])
  }

  lemma FoundOnEitherSide(w: World, listed: bool, env: Environment, targets: seq<string>)
    requires Visited(targets, MetaIndex(w, listed, env).Keys + EncodableCardDAV(w).Keys)
    ensures NamesAll(w, listed, env, targets)
  {
  }

  lemma ForceOn(cfg: Config, w: World, done: seq<string>, listed: bool, env: Environment, uid: string)
    ensures ForcedAll(cfg, w, done + [uid], listed, env) == ForceStep(cfg, w, ForcedAll(cfg, w, done, listed, env), uid, listed, env)
  {
    assert (done + [uid])[..|done|] == done;
  }

  lemma ForcedKeepsProton(cfg: Config, seen: Contact, c: Contact, listed: bool, out: Outcome)
    ensures c.proton.Some? ==> Forced(cfg, seen, c, listed, out).contact.proton.Some?
  {
  }

  lemma StoreKeepsProton(w: World, uid: string, c: Contact)
    ensures (uid in w.proton ==> c.proton.Some?) ==> w.proton.Keys <= Store(w, uid, c).proton.Keys
  {
  }

  class Syncer {
    const cfg: Config
    var proton: map<string, Card>
    var carddav: map<string, Card>
    var db: map<string, Bases>
    var twins: set<string>
    ghost var trace: seq<(string, Effect)>

    ghost function State(): World
      reads this
    {
      World(proton, carddav, db, twins)
    }

    constructor (cfg: Config, w: World)
      ensures this.cfg == cfg && State() == w && trace == []
    {
      this.cfg := cfg;
      proton, carddav, db, twins := w.proton, w.carddav, w.db, w.twins;
      trace := [];
    }

    // ---- The servers and the database -----------------------------------------------

    // Each write answers for one contact: the state is w with contact c at uid before it,
    // and w with c changed in the one place afterwards.
    method PutContact(uid: string, card: Card, reply: Reply, ghost w: World, ghost c: Contact) returns (ok: bool)
      requires State() == Store(w, uid, c)
      modifies this`carddav, this`trace
      ensures ok == (reply == Done)
      ensures State() == Store(w, uid, if Took(reply) then c.(carddav := Some(card)) else c)
      ensures trace == old(trace) + [(uid, Put(card, reply))]
    {
      StorePut(w, uid, c, card);
      if Took(reply) {
        carddav := carddav[uid := card];
      }
      trace := trace + [(uid, Put(card, reply))];
      ok := reply == Done;
    }

    // A create for a UID that Proton already has makes a second contact.
    method CreateContact(uid: string, card: Card, reply: Reply, ghost w: World, ghost c: Contact) returns (ok: bool)
      requires State() == Store(w, uid, c)
      modifies this`proton, this`twins, this`trace
      ensures ok == (reply == Done)
      ensures State() == Store(w, uid, if Took(reply) then WithCreated(cfg, c, card) else c)
      ensures trace == old(trace) + [(uid, Create(card, reply))]
    {
      StoreCreate(w, uid, cfg, c, card);
      if Took(reply) {
        if uid in proton {
          twins := twins + {uid};
        } else {
          proton := proton[uid := cfg.norm(card)];
        }
      }
      trace := trace + [(uid, Create(card, reply))];
      ok := reply == Done;
    }

    method UpdateContact(uid: string, card: Card, reply: Reply, ghost w: World, ghost c: Contact) returns (ok: bool)
      requires State() == Store(w, uid, c)
      modifies this`proton, this`trace
      ensures ok == (reply == Done)
      ensures State() == Store(w, uid, if Took(reply) then c.(proton := Some(cfg.norm(card))) else c)
      ensures trace == old(trace) + [(uid, Update(card, reply))]
    {
      StoreSend(w, uid, c, cfg.norm(card));
      if Took(reply) {
        proton := proton[uid := cfg.norm(card)];
      }
      trace := trace + [(uid, Update(card, reply))];
      ok := reply == Done;
    }

    method SaveContactBases(uid: string, bases: Bases, reply: Reply, ghost w: World, ghost c: Contact) returns (ok: bool)
      requires State() == Store(w, uid, c)
      modifies this`db, this`trace
      ensures ok == (reply == Done)
      ensures State() == Store(w, uid, if Took(reply) then c.(base := Some(bases)) else c)
      ensures trace == old(trace) + [(uid, Save(bases, reply))]
    {
      StoreSave(w, uid, c, bases);
      if Took(reply) {
        db := db[uid := bases];
      }
      trace := trace + [(uid, Save(bases, reply))];
      ok := reply == Done;
    }

    method ProtonByUID(env: Environment) returns (index: map<string, Card>)
      ensures index == ReadableProton(State(), env)
    {
      index := map[];
      var pending := proton.Keys;
      while pending != {}
        invariant pending <= proton.Keys
        invariant index == map uid | uid in proton && uid !in pending && env(uid).fetch :: proton[uid]
        decreases |pending|
      {
        var uid :| uid in pending;
        pending := pending - {uid};
        if env(uid).fetch {
          index := index[uid := proton[uid]];
        }
      }
    }

    method CardDAVIndex() returns (index: map<string, Card>)
      ensures index == EncodableCardDAV(State())
    {
      index := map[];
      var pending := carddav.Keys;
      while pending != {}
        invariant pending <= carddav.Keys
        invariant index == map uid | uid in carddav && uid !in pending && Encodable(carddav[uid]) :: carddav[uid]
        decreases |pending|
      {
        var uid :| uid in pending;
        pending := pending - {uid};
        if Encodable(carddav[uid]) {
          index := index[uid := carddav[uid]];
        }
      }
    }

    // ---- reconcile ------------------------------------------------------------------

    // uid's contact has become what visit v says, from contact c of state w.
    twostate predicate Did(uid: string, v: Visit, new ok: bool)
      reads this
    {
      && State() == Store(old(State()), uid, v.contact)
      && trace == old(trace) + Tagged(uid, v.effects)
      && ok == !v.aborted
    }

    // Write Proton only when a property it models changed, read the card back, and record
    // the bases.
    method PushToProton(uid: string, p: Card, merged: Card, rec: Bases, out: Outcome) returns (ok: bool)
      requires uid in proton && proton[uid] == p && rec.proton == ProtonBase(Look(State(), uid))
      modifies this
      ensures Did(uid, PushMerged(cfg, Look(old(State()), uid), merged, out, []), ok)
    {
      ghost var w := State();
      ghost var now := Look(w, uid);
      StoreLook(w, uid);
      var protonBase := p;
      var protonChanged := ProtonRelevantDiff(merged, p, rec.proton);
      if protonChanged {
        ok := UpdateContact(uid, merged, out.update, w, now);
        if !ok {
          return true;
        }
        now := now.(proton := Some(cfg.norm(merged)));
        if out.updateReread {
          LookStore(w, uid, now, uid);
          protonBase := proton[uid];
        }
      }
      ok := SaveContactBases(uid, Bases(protonBase, merged), out.save, w, now);
    }

    method ReconcileBoth(uid: string, p: Card, c: Card, rec: Bases, out: Outcome) returns (ok: bool)
      requires uid in proton && proton[uid] == p && uid in carddav && carddav[uid] == c
      requires rec == Bases(ProtonBase(Look(State(), uid)), CardDAVBase(Look(State(), uid)))
      modifies this
      ensures Did(uid, VisitBoth(cfg, Look(old(State()), uid), out), ok)
    {
      var merged, conflicts := ThreeWayByPolicy(cfg.rev, Versions(rec.proton, rec.carddav, p, c), cfg.policy);
      ok := WriteMerged(uid, p, c, merged, rec, out);
    }

    // Write CardDAV when the merge changed anything, then Proton.
    method WriteMerged(uid: string, p: Card, c: Card, merged: Card, rec: Bases, out: Outcome) returns (ok: bool)
      requires uid in proton && proton[uid] == p && uid in carddav && carddav[uid] == c
      requires rec.proton == ProtonBase(Look(State(), uid))
      modifies this
      ensures Did(uid, WriteBoth(cfg, Look(old(State()), uid), merged, out), ok)
    {
      var cdEqual := EqualCards(merged, c);
      if cdEqual {
        ok := PushToProton(uid, p, merged, rec, out);
      } else {
        ok := WriteBothSides(uid, p, merged, rec, out);
      }
    }

    method WriteBothSides(uid: string, p: Card, merged: Card, rec: Bases, out: Outcome) returns (ok: bool)
      requires uid in proton && proton[uid] == p && uid in carddav && !Same(merged, carddav[uid])
      requires rec.proton == ProtonBase(Look(State(), uid))
      modifies this
      ensures Did(uid, WriteBoth(cfg, Look(old(State()), uid), merged, out), ok)
    {
      ghost var w := State();
      ghost var now := Look(w, uid);
      StoreLook(w, uid);
      ghost var put := [(uid, Put(merged, out.put))];
      ghost var rest := PushMerged(cfg, now.(carddav := Some(merged)), merged, out, []).effects;
      TaggedTwo(uid, Put(merged, out.put), Put(merged, out.put));
      Appended(trace, put, Tagged(uid, rest));
      ok := PutContact(uid, merged, out.put, w, now);
      if ok {
        ok := PushAfterPut(uid, p, merged, rec, out, w, now);
      }
    }

    // The Proton half when CardDAV has just been written; w and now describe the state before that.
    method PushAfterPut(uid: string, p: Card, merged: Card, rec: Bases, out: Outcome, ghost w: World, ghost now: Contact) returns (ok: bool)
      requires now.proton == Some(p) && rec.proton == ProtonBase(now)
      requires State() == Store(w, uid, now.(carddav := Some(merged)))
      modifies this
      ensures var v := PushMerged(cfg, now.(carddav := Some(merged)), merged, out, [Put(merged, Done)]);
              && State() == Store(w, uid, v.contact)
              && trace == old(trace) + Tagged(uid, PushMerged(cfg, now.(carddav := Some(merged)), merged, out, []).effects)
              && Tagged(uid, v.effects) == [(uid, Put(merged, Done))] + Tagged(uid, PushMerged(cfg, now.(carddav := Some(merged)), merged, out, []).effects)
              && ok == !v.aborted
    {
      ghost var put := now.(carddav := Some(merged));
      LookStore(w, uid, put, uid);
      ok := PushToProton(uid, p, merged, rec, out);
      PushPrefix(cfg, put, merged, out, Put(merged, Done), uid);
      StoreStore(w, uid, put, PushMerged(cfg, put, merged, out, []).contact);
    }

    // A contact only Proton has: PutContact, then record the bases.
    method CreateOnCardDAV(uid: string, p: Card, out: Outcome) returns (ok: bool)
      requires uid in proton && proton[uid] == p
      modifies this
      ensures Did(uid, CopyToCardDAV(Look(old(State()), uid), out), ok)
    {
      ghost var w := State();
      ghost var now := Look(w, uid);
      StoreLook(w, uid);
      ok := PutContact(uid, p, out.put, w, now);
      if !ok {
        return false;
      }
      now := now.(carddav := Some(p));
      ok := SaveContactBases(uid, Bases(p, p), out.save, w, now);
    }

    // A contact only CardDAV has: create it on Proton, read back what Proton made of it,
    // record the bases.
    method CreateOnProton(uid: string, c: Card, out: Outcome) returns (ok: bool, created: bool)
      modifies this
      ensures Did(uid, CreateAndSave(cfg, Look(old(State()), uid), c, out), ok)
      ensures created == CreateAndSave(cfg, Look(old(State()), uid), c, out).created
    {
      ghost var w := State();
      ghost var now := Look(w, uid);
      StoreLook(w, uid);
      TaggedTwo(uid, Create(c, out.create), Save(Bases(if out.createReread then cfg.norm(c) else c, c), out.save));
      created := CreateContact(uid, c, out.create, w, now);
      if !created {
        return true, false;
      }
      now := WithCreated(cfg, now, c);
      var protonBase := c;
      if out.createReread {
        protonBase := cfg.norm(c);
      }
      ok := SaveContactBases(uid, Bases(protonBase, c), out.save, w, now);
    }

    // The body of reconcile's loop. protonIdx and carddavIdx were read when the pass began.
    method ReconcileOne(uid: string, protonIdx: map<string, Card>, carddavIdx: map<string, Card>, newProton: nat, out: Outcome)
      returns (ok: bool, created: bool, deferred: bool)
      requires uid in protonIdx || uid in carddavIdx
      requires uid in protonIdx <==> OnProton(Look(State(), uid), out)
      requires uid in carddavIdx <==> OnCardDAV(Look(State(), uid))
      requires uid in protonIdx ==> protonIdx[uid] == proton[uid]
      requires uid in carddavIdx ==> carddavIdx[uid] == carddav[uid]
      modifies this
      ensures var v := VisitContact(cfg, Look(old(State()), uid), CapReached(cfg, newProton), out);
              Did(uid, v, ok) && created == v.created && deferred == v.deferred
    {
      created, deferred := false, false;
      StoreLook(State(), uid);
      if !out.lookup {
        return false, false, false;
      }
      var hasBase := uid in db;
      var rec := if hasBase then db[uid] else Bases(NO_CARD, NO_CARD);
      if uid in protonIdx && uid in carddavIdx {
        ok := ReconcileBoth(uid, protonIdx[uid], carddavIdx[uid], rec, out);
        VisitBothIssues(cfg, Look(old(State()), uid), out);
      } else if hasBase {
        ok := true;
      } else if uid in protonIdx {
        ok := CreateOnCardDAV(uid, protonIdx[uid], out);
      } else if cfg.cap > 0 && newProton >= cfg.cap {
        ok, deferred := true, true;
      } else {
        ok, created := CreateOnProton(uid, carddavIdx[uid], out);
      }
    }

    ghost predicate AtPass(before: seq<(string, Effect)>, p: Pass)
      reads this
    {
      State() == p.world && trace == before + p.trace
    }

    // One iteration: from pass state p, visit uid.
    method ReconcileNext(uid: string, protonIdx: map<string, Card>, carddavIdx: map<string, Card>, newProton: nat, env: Environment,
                         ghost w: World, ghost before: seq<(string, Effect)>, ghost p: Pass)
      returns (ok: bool, created: bool, deferred: bool)
      requires uid in protonIdx || uid in carddavIdx
      requires protonIdx == ReadableProton(w, env) && carddavIdx == EncodableCardDAV(w)
      requires AtPass(before, p) && !p.aborted && newProton == p.created && Look(p.world, uid) == Look(w, uid)
      modifies this
      ensures AtPass(before, Step(cfg, p, uid, env))
      ensures Step(cfg, p, uid, env).created == p.created + if created then 1 else 0
      ensures Step(cfg, p, uid, env).aborted == !ok
    {
      IndexesCurrent(w, State(), env, uid);
      ghost var v := VisitIn(cfg, p, uid, env);
      Appended(before, p.trace, Tagged(uid, v.effects));
      ok, created, deferred := ReconcileOne(uid, protonIdx, carddavIdx, newProton, env(uid));
    }

    // A whole pass. `patience` is the number of contacts handled before the context is
    // cancelled. Go's map iteration picks the order, reported in `order`.
    method Reconcile(env: Environment, patience: nat) returns (finished: bool, ghost order: seq<string>)
      modifies this
      ensures Distinct(order) && forall uid | uid in order :: uid in Indexed(old(State()), env)
      ensures AtPass(old(trace), Reconciled(cfg, old(State()), order, env))
      ensures finished ==> Complete(old(State()), env, order) && !Reconciled(cfg, old(State()), order, env).aborted
      ensures !finished ==> Reconciled(cfg, old(State()), order, env).aborted || |order| == patience
    {
      ghost var w, before := State(), trace;
      var protonIdx := ProtonByUID(env);
      var carddavIdx := CardDAVIndex();
      var uids := protonIdx.Keys + carddavIdx.Keys;
      ghost var all := uids;
      IndexedIsUnion(w, env);
      var newProton, deferred, handled := 0, 0, 0;
      order := [];
      while uids != {} && handled < patience
        invariant uids <= all && Visited(order, all - uids) && handled == |order| <= patience
        invariant AtPass(before, Reconciled(cfg, w, order, env)) && !Reconciled(cfg, w, order, env).aborted
        invariant newProton == Reconciled(cfg, w, order, env).created
        decreases |uids|
      {
        var uid :| uid in uids;
        VisitedMore(order, all, uids, uid);
        uids := uids - {uid};
        Untouched(cfg, w, order, env, uid);
        StepOn(cfg, w, order, env, uid);
        var ok, created, postponed := ReconcileNext(uid, protonIdx, carddavIdx, newProton, env, w, before, Reconciled(cfg, w, order, env));
        order := order + [uid];
        if !ok {
          return false, order;
        }
        handled := handled + 1;
        newProton := if created then newProton + 1 else newProton;
        deferred := if postponed then deferred + 1 else deferred;
      }
      finished := uids == {};
    }

    // ---- ForceContacts --------------------------------------------------------------

    // Proton's side of the repair index: card-less metadata when the contact list carries
    // every UID, otherwise every card that can be read.
    method ProtonMeta(listed: bool, env: Environment) returns (meta: map<string, Option<Card>>)
      ensures meta == MetaIndex(State(), listed, env)
    {
      if listed {
        meta := map uid | uid in proton :: None;
      } else {
        var index := ProtonByUID(env);
        meta := map uid | uid in index :: Some(index[uid]);
      }
    }

    method ForceCopy(uid: string, v: Card, out: Outcome) returns (ok: bool)
      modifies this
      ensures Did(uid, ForceToCardDAV(Look(old(State()), uid), v, out), ok)
    {
      ghost var w := State();
      ghost var now := Look(w, uid);
      StoreLook(w, uid);
      ok := PutContact(uid, v, out.put, w, now);
      if !ok {
        return true;
      }
      now := now.(carddav := Some(v));
      ok := SaveContactBases(uid, Bases(v, v), out.save, w, now);
    }

    method ForcePush(uid: string, c: Card, out: Outcome) returns (ok: bool)
      modifies this
      ensures Did(uid, ForceUpdate(cfg, Look(old(State()), uid), c, out), ok)
    {
      ghost var w := State();
      ghost var now := Look(w, uid);
      StoreLook(w, uid);
      ok := UpdateContact(uid, c, out.update, w, now);
      if !ok {
        return true;
      }
      now := now.(proton := Some(cfg.norm(c)));
      var protonBase := if out.updateReread then cfg.norm(c) else c;
      ok := SaveContactBases(uid, Bases(protonBase, c), out.save, w, now);
    }

    // meta and carddavIdx were read when the command began, in state w.
    method ForceOne(uid: string, meta: map<string, Option<Card>>, carddavIdx: map<string, Card>, listed: bool, env: Environment,
                    ghost w: World) returns (ok: bool)
      requires meta == MetaIndex(w, listed, env) && carddavIdx == EncodableCardDAV(w)
      requires w.proton.Keys <= proton.Keys
      modifies this
      ensures Did(uid, Forced(cfg, Look(w, uid), Look(old(State()), uid), listed, env(uid)), ok)
      ensures w.proton.Keys <= proton.Keys
    {
      ghost var now := State();
      StoreLook(now, uid);
      StoreKeepsProton(now, uid, Forced(cfg, Look(w, uid), Look(now, uid), listed, env(uid)).contact);
      ForcedKeepsProton(cfg, Look(w, uid), Look(now, uid), listed, env(uid));
      if uid !in meta && uid !in carddavIdx {
        ok := true;
      } else if uid !in carddavIdx {
        if meta[uid].Some? {
          ok := ForceCopy(uid, meta[uid].value, env(uid));
        } else if env(uid).fetch {
          ok := ForceCopy(uid, proton[uid], env(uid));
        } else {
          ok := true;
        }
      } else if uid !in meta {
        var created: bool;
        ok, created := CreateOnProton(uid, carddavIdx[uid], env(uid));
      } else {
        ok := ForcePush(uid, carddavIdx[uid], env(uid));
      }
    }

    // Repair the given targets in turn, by the indexes read in the current state. `done`
    // reports how far the command got.
    method ForceTargets(targets: seq<string>, meta: map<string, Option<Card>>, carddavIdx: map<string, Card>, listed: bool,
                        env: Environment, patience: nat) returns (finished: bool, ghost done: seq<string>)
      requires meta == MetaIndex(State(), listed, env) && carddavIdx == EncodableCardDAV(State())
      modifies this
      ensures done <= targets && (finished ==> done == targets)
      ensures AtPass(old(trace), ForcedAll(cfg, old(State()), done, listed, env))
      ensures finished ==> !ForcedAll(cfg, old(State()), done, listed, env).aborted
      ensures !finished ==> ForcedAll(cfg, old(State()), done, listed, env).aborted || |done| == patience
    {
      ghost var w, before := State(), trace;
      var i := 0;
      done := [];
      while i < |targets| && i < patience
        invariant i <= |targets| && i <= patience && done == targets[..i] && w.proton.Keys <= proton.Keys
        invariant AtPass(before, ForcedAll(cfg, w, done, listed, env)) && !ForcedAll(cfg, w, done, listed, env).aborted
      {
        ForceOn(cfg, w, done, listed, env, targets[i]);
        TakeOneMore(targets, i);
        var ok := ForceNext(targets[i], meta, carddavIdx, listed, env, w, before, ForcedAll(cfg, w, done, listed, env));
        done := done + [targets[i]];
        i := i + 1;
        if !ok {
          return false, done;
        }
      }
      finished := i == |targets|;
    }

    // One iteration: from state p of the command, repair uid.
    method ForceNext(uid: string, meta: map<string, Option<Card>>, carddavIdx: map<string, Card>, listed: bool, env: Environment,
                     ghost w: World, ghost before: seq<(string, Effect)>, ghost p: Pass) returns (ok: bool)
      requires meta == MetaIndex(w, listed, env) && carddavIdx == EncodableCardDAV(w)
      requires AtPass(before, p) && !p.aborted && w.proton.Keys <= proton.Keys
      modifies this
      ensures AtPass(before, ForceStep(cfg, w, p, uid, listed, env)) && ForceStep(cfg, w, p, uid, listed, env).aborted == !ok
      ensures w.proton.Keys <= proton.Keys
    {
      Appended(before, p.trace, Tagged(uid, ForceIn(cfg, w, p, uid, listed, env).effects));
      ok := ForceOne(uid, meta, carddavIdx, listed, env, w);
    }

    // Some listing of a set of UIDs, as Go's map iteration produces it.
    method ListUIDs(found: set<string>) returns (targets: seq<string>)
      ensures Visited(targets, found)
    {
      var pending := found;
      targets := [];
      while pending != {}
        invariant pending <= found && Visited(targets, found - pending)
        decreases |pending|
      {
        var uid :| uid in pending;
        VisitedMore(targets, found, pending, uid);
        targets := targets + [uid];
        pending := pending - {uid};
      }
    }

    // The command itself: the given UIDs, or every contact found on either side, in
    // whatever order the set of UIDs is walked.
    method ForceContacts(uids: seq<string>, all: bool, listed: bool, env: Environment, patience: nat)
      returns (finished: bool, ghost targets: seq<string>, ghost done: seq<string>)
      modifies this
      ensures if all then NamesAll(old(State()), listed, env, targets) else targets == uids
      ensures done <= targets && (finished ==> done == targets)
      ensures AtPass(old(trace), ForcedAll(cfg, old(State()), done, listed, env))
      ensures finished ==> !ForcedAll(cfg, old(State()), done, listed, env).aborted
      ensures !finished ==> ForcedAll(cfg, old(State()), done, listed, env).aborted || |done| == patience
    {
      var carddavIdx := CardDAVIndex();
      var meta := ProtonMeta(listed, env);
      var chosen := uids;
      if all {
        chosen := ListUIDs(meta.Keys + carddavIdx.Keys);
        FoundOnEitherSide(State(), listed, env, chosen);
      }
      targets := chosen;
      finished, done := ForceTargets(chosen, meta, carddavIdx, listed, env, patience);
    }
  }
}
