// Whole passes over the address book: the two stores, the database, and reconcile as a
// fold of contact visits in whatever order the UIDs come.
module AddressBook {
  import opened Vcard
  import opened SyncModel
  import opened ContactLaws

  datatype World = World(proton: map<string, Card>, carddav: map<string, Card>, db: map<string, Bases>, twins: set<string>)

  type Environment = string -> Outcome

  function CleanEnv(): Environment {
    _ => CLEAN
  }

  function Find<T>(m: map<string, T>, uid: string): Option<T> {
    if uid in m then Some(m[uid]) else None
  }

  function Assign<T>(m: map<string, T>, uid: string, value: Option<T>): map<string, T> {
    if value.Some? then m[uid := value.value] else m - {uid}
  }

  function Look(w: World, uid: string): Contact {
    Contact(Find(w.proton, uid), Find(w.carddav, uid), Find(w.db, uid), uid in w.twins)
  }

  function Store(w: World, uid: string, c: Contact): World {
    World(Assign(w.proton, uid, c.proton), Assign(w.carddav, uid, c.carddav), Assign(w.db, uid, c.base),
          if c.twin then w.twins + {uid} else w.twins - {uid})
  }

  lemma LookStore(w: World, uid: string, c: Contact, other: string)
    ensures Look(Store(w, uid, c), other) == if other == uid then c else Look(w, other)
  {
  }

  lemma WorldsEqual(a: World, b: World)
    requires forall uid :: Look(a, uid) == Look(b, uid)
    ensures a == b
  {
    forall uid
      ensures uid in a.proton <==> uid in b.proton
      ensures uid in a.proton ==> a.proton[uid] == b.proton[uid]
      ensures uid in a.carddav <==> uid in b.carddav
      ensures uid in a.carddav ==> a.carddav[uid] == b.carddav[uid]
      ensures uid in a.db <==> uid in b.db
      ensures uid in a.db ==> a.db[uid] == b.db[uid]
      ensures uid in a.twins <==> uid in b.twins
    {
      assert Look(a, uid) == Look(b, uid);
    }
  }

  // ---- A pass -----------------------------------------------------------------------

  datatype Pass = Pass(world: World, trace: seq<(string, Effect)>, created: nat, deferred: nat, aborted: bool)

  predicate CapReached(cfg: Config, created: nat) {
    cfg.cap > 0 && created >= cfg.cap
  }

  function Tagged(uid: string, effects: seq<Effect>): (r: seq<(string, Effect)>)
    ensures |r| == |effects|
    ensures forall i | 0 <= i < |r| :: r[i] == (uid, effects[i])
  {
    seq(|effects|, i requires 0 <= i < |effects| => (uid, effects[i]))
  }

  ghost function VisitIn(cfg: Config, p: Pass, uid: string, env: Environment): Visit {
    VisitContact(cfg, Look(p.world, uid), CapReached(cfg, p.created), env(uid))
  }

  ghost function Step(cfg: Config, p: Pass, uid: string, env: Environment): Pass {
    if p.aborted then p else
      var v := VisitIn(cfg, p, uid, env);
      Pass(Store(p.world, uid, v.contact), p.trace + Tagged(uid, v.effects),
           p.created + (if v.created then 1 else 0), p.deferred + (if v.deferred then 1 else 0), v.aborted)
  }

  function Start(w: World): Pass {
    Pass(w, [], 0, 0, false)
  }

  // reconcile, visiting `order`; a cancelled pass is one whose order stops early.
  ghost function Reconciled(cfg: Config, w: World, order: seq<string>, env: Environment): Pass {
    if order == [] then Start(w)
    else Step(cfg, Reconciled(cfg, w, order[..|order| - 1], env), order[|order| - 1], env)
  }

  predicate Distinct(order: seq<string>) {
    forall i, j | 0 <= i < j < |order| :: order[i] != order[j]
  }

  // The UIDs reconcile sees: Proton contacts whose card could be read, and CardDAV
  // contacts that can be encoded.
  function Indexed(w: World, env: Environment): set<string> {
    (set uid | uid in w.proton && env(uid).fetch) + (set uid | uid in w.carddav && Encodable(w.carddav[uid]))
  }

  predicate Complete(w: World, env: Environment, order: seq<string>) {
    Distinct(order) && forall uid | uid in Indexed(w, env) :: uid in order
  }

  // ---- Passes are pointwise ---------------------------------------------------------

  lemma {:induction false} Untouched(cfg: Config, w: World, order: seq<string>, env: Environment, uid: string)
    requires uid !in order
    ensures Look(Reconciled(cfg, w, order, env).world, uid) == Look(w, uid)
  {
    if order != [] {
      var rest, last := order[..|order| - 1], order[|order| - 1];
      Untouched(cfg, w, rest, env, uid);
      var p := Reconciled(cfg, w, rest, env);
      LookStore(p.world, last, VisitIn(cfg, p, last, env).contact, uid);
    }
  }

  // The outcome for one UID: either it was not reached, or it is one visit to the
  // contact as it was before the pass.
  ghost predicate Reached(cfg: Config, w: World, p: Pass, env: Environment, uid: string, full: bool) {
    var v := VisitContact(cfg, Look(w, uid), full, env(uid));
    && Look(p.world, uid) == v.contact
    && (forall e | e in v.effects :: (uid, e) in p.trace)
    && (!p.aborted ==> !v.aborted)
    && (v.deferred ==> p.deferred > 0)
  }

  lemma StepElsewhere(cfg: Config, w: World, p: Pass, env: Environment, last: string, uid: string, full: bool)
    requires uid != last && Reached(cfg, w, p, env, uid, full)
    ensures Reached(cfg, w, Step(cfg, p, last, env), env, uid, full)
  {
    if !p.aborted {
      LookStore(p.world, last, VisitIn(cfg, p, last, env).contact, uid);
    }
  }

  lemma StepHere(cfg: Config, w: World, p: Pass, env: Environment, uid: string)
    requires !p.aborted && Look(p.world, uid) == Look(w, uid)
    ensures Reached(cfg, w, Step(cfg, p, uid, env), env, uid, CapReached(cfg, p.created))
  {
    var v := VisitIn(cfg, p, uid, env);
    LookStore(p.world, uid, v.contact, uid);
    var t := Tagged(uid, v.effects);
    forall e | e in v.effects ensures (uid, e) in p.trace + t {
      var i :| 0 <= i < |v.effects| && v.effects[i] == e;
      assert t[i] == (uid, e);
    }
  }

  lemma {:induction false} PassPointwise(cfg: Config, w: World, order: seq<string>, env: Environment, uid: string) returns (full: bool)
    requires Distinct(order)
    ensures var p := Reconciled(cfg, w, order, env);
            || (uid in order && Reached(cfg, w, p, env, uid, full))
            || ((uid in order ==> p.aborted) && Look(p.world, uid) == Look(w, uid))
  {
    full := false;
    if uid !in order {
      Untouched(cfg, w, order, env, uid);
    } else {
      var rest, last := order[..|order| - 1], order[|order| - 1];
      var p := Reconciled(cfg, w, rest, env);
      if uid == last {
        assert uid !in rest;
        Untouched(cfg, w, rest, env, uid);
        if !p.aborted {
          StepHere(cfg, w, p, env, uid);
          full := CapReached(cfg, p.created);
        }
      } else {
        full := PassPointwise(cfg, w, rest, env, uid);
        assert uid in rest;
        if Reached(cfg, w, p, env, uid, full) {
          StepElsewhere(cfg, w, p, env, last, uid, full);
        }
      }
    }
  }

  // The cap only matters for contacts that are deferred.
  lemma CapOnlyDefers(cfg: Config, c: Contact, out: Outcome)
    ensures var v := VisitContact(cfg, c, true, out);
            v.deferred || v == VisitContact(cfg, c, false, out)
  {
  }

  // In a pass that neither aborts nor defers, every listed contact gets its full visit.
  lemma FullVisit(cfg: Config, w: World, order: seq<string>, env: Environment, uid: string)
    requires Distinct(order) && uid in order
    requires !Reconciled(cfg, w, order, env).aborted && Reconciled(cfg, w, order, env).deferred == 0
    ensures Reached(cfg, w, Reconciled(cfg, w, order, env), env, uid, false)
  {
    var full := PassPointwise(cfg, w, order, env, uid);
    CapOnlyDefers(cfg, Look(w, uid), env(uid));
  }

  // Every effect of a pass belongs to a visit of a contact as it was before the pass.
  lemma {:induction false} TraceOrigin(cfg: Config, w: World, order: seq<string>, env: Environment, t: (string, Effect)) returns (full: bool)
    requires Distinct(order)
    requires t in Reconciled(cfg, w, order, env).trace
    ensures t.0 in order
    ensures t.1 in VisitContact(cfg, Look(w, t.0), full, env(t.0)).effects
    ensures var p := Reconciled(cfg, w, order, env);
            p.deferred == 0 ==> t.1 in VisitContact(cfg, Look(w, t.0), false, env(t.0)).effects
  {
    var rest, last := order[..|order| - 1], order[|order| - 1];
    var p := Reconciled(cfg, w, rest, env);
    if t in p.trace {
      full := TraceOrigin(cfg, w, rest, env, t);
    } else {
      var v := VisitIn(cfg, p, last, env);
      assert t in Tagged(last, v.effects);
      assert last !in rest;
      Untouched(cfg, w, rest, env, last);
      full := CapReached(cfg, p.created);
      CapOnlyDefers(cfg, Look(w, last), env(last));
    }
  }

  // A clean pass never aborts.
  lemma {:induction false} CleanPassFinishes(cfg: Config, w: World, order: seq<string>)
    ensures !Reconciled(cfg, w, order, CleanEnv()).aborted
  {
    if order != [] {
      var rest, last := order[..|order| - 1], order[|order| - 1];
      CleanPassFinishes(cfg, w, rest);
      var p := Reconciled(cfg, w, rest, CleanEnv());
      CleanVisitFinishes(cfg, Look(p.world, last), CapReached(cfg, p.created));
    }
  }

  lemma CleanVisitFinishes(cfg: Config, c: Contact, full: bool)
    ensures !VisitContact(cfg, c, full, CLEAN).aborted
  {
    if c.proton.Some? && OnCardDAV(c) {
      CleanBoth(cfg, c);
    }
  }
}
