// The per-run cap on new Proton contacts.
module CapDraining {
  import opened Sequences
  import opened SyncModel
  import opened ContactLaws
  import opened AddressBook

  // Contacts that only CardDAV has and that have never been synchronised.
  function Waiting(w: World): set<string> {
    set uid | uid in w.carddav && Encodable(w.carddav[uid]) && uid !in w.proton && uid !in w.db
  }

  function WaitingIn(w: World, order: seq<string>): set<string> {
    set uid | uid in order && uid in Waiting(w)
  }

  function Min(a: int, b: int): int {
    if a <= b then a else b
  }

  function Max(a: int, b: int): int {
    if a >= b then a else b
  }

  function Allowed(cfg: Config, n: nat): nat {
    if cfg.cap > 0 then Min(cfg.cap, n) else n
  }

  lemma StoreWaiting(w: World, uid: string, c: Contact)
    ensures Waiting(Store(w, uid, c)) ==
            if c.proton.None? && OnCardDAV(c) && c.base.None? then Waiting(w) + {uid} else Waiting(w) - {uid}
  {
    forall other ensures other in Waiting(Store(w, uid, c)) <==>
                         (if other == uid then c.proton.None? && OnCardDAV(c) && c.base.None? else other in Waiting(w))
    {
      LookStore(w, uid, c, other);
      assert other in Waiting(w) <==>
             var d := Look(w, other); d.proton.None? && OnCardDAV(d) && d.base.None?;
      assert other in Waiting(Store(w, uid, c)) <==>
             var d := Look(Store(w, uid, c), other); d.proton.None? && OnCardDAV(d) && d.base.None?;
    }
  }

  lemma CleanVisitCounts(cfg: Config, c: Contact, full: bool)
    ensures var v := VisitContact(cfg, c, full, CLEAN);
            var waits := c.proton.None? && OnCardDAV(c) && c.base.None?;
            && v.created == (waits && !full)
            && v.deferred == (waits && full)
            && ((v.contact.proton.None? && OnCardDAV(v.contact) && v.contact.base.None?) <==> waits && full)
  {
    if c.proton.Some? && OnCardDAV(c) {
      CleanBoth(cfg, c);
    }
  }

  // Totals after visiting contacts of which k were waiting.
  ghost predicate Tally(cfg: Config, w: World, p: Pass, k: nat) {
    && p.created == Allowed(cfg, k) && p.deferred == k - Allowed(cfg, k)
    && |Waiting(p.world)| == |Waiting(w)| - p.created
  }

  lemma TallyStep(cfg: Config, w: World, p: Pass, k: nat, uid: string)
    requires !p.aborted && Tally(cfg, w, p, k) && Look(p.world, uid) == Look(w, uid)
    ensures Tally(cfg, w, Step(cfg, p, uid, CleanEnv()), if uid in Waiting(w) then k + 1 else k)
  {
    LookWaiting(w, uid);
    LookWaiting(p.world, uid);
    CleanVisitCounts(cfg, Look(w, uid), CapReached(cfg, p.created));
    StepWaiting(cfg, p, uid);
  }

  lemma StepWaiting(cfg: Config, p: Pass, uid: string)
    requires !p.aborted
    ensures |Waiting(Step(cfg, p, uid, CleanEnv()).world)| ==
            |Waiting(p.world)| - if uid in Waiting(p.world) && !CapReached(cfg, p.created) then 1 else 0
  {
    var c := Look(p.world, uid);
    var v := VisitIn(cfg, p, uid, CleanEnv());
    CleanVisitCounts(cfg, c, CapReached(cfg, p.created));
    StoreWaiting(p.world, uid, v.contact);
    LookWaiting(p.world, uid);
    var before := Waiting(p.world);
    assert uid in before ==> |before - {uid}| == |before| - 1 && before + {uid} == before;
    assert uid !in before ==> before - {uid} == before;
  }

  lemma LookWaiting(w: World, uid: string)
    ensures uid in Waiting(w) <==> var c := Look(w, uid); c.proton.None? && OnCardDAV(c) && c.base.None?
  {
  }

  // Running totals of a clean pass: as many creates as the cap allows, the rest deferred,
  // whatever the order.
  lemma {:induction false} CleanPassCounts(cfg: Config, w: World, order: seq<string>)
    requires Distinct(order)
    ensures Tally(cfg, w, Reconciled(cfg, w, order, CleanEnv()), |WaitingIn(w, order)|)
  {
    if order == [] {
      assert WaitingIn(w, order) == {};
    } else {
      var rest, last := order[..|order| - 1], order[|order| - 1];
      CleanPassFinishes(cfg, w, rest);
      CleanPassCounts(cfg, w, rest);
      assert last !in rest;
      Untouched(cfg, w, rest, CleanEnv(), last);
      TallyStep(cfg, w, Reconciled(cfg, w, rest, CleanEnv()), |WaitingIn(w, rest)|, last);
      WaitingGrows(w, rest, last);
      FrontLast(order);
    }
  }

  lemma WaitingGrows(w: World, rest: seq<string>, last: string)
    requires last !in rest
    ensures |WaitingIn(w, rest + [last])| == |WaitingIn(w, rest)| + if last in Waiting(w) then 1 else 0
  {
    assert WaitingIn(w, rest + [last]) == if last in Waiting(w) then WaitingIn(w, rest) + {last} else WaitingIn(w, rest);
  }

  // One complete clean pass creates cap contacts, or all that wait if there are fewer.
  lemma DrainOnce(cfg: Config, w: World, order: seq<string>)
    requires Complete(w, CleanEnv(), order)
    ensures var p, k := Reconciled(cfg, w, order, CleanEnv()), |Waiting(w)|;
            && p.created == Allowed(cfg, k)
            && |Waiting(p.world)| == if cfg.cap > 0 then Max(0, k - cfg.cap) else 0
  {
    CleanPassCounts(cfg, w, order);
    assert WaitingIn(w, order) == Waiting(w) by {
      forall uid | uid in Waiting(w) ensures uid in order {
        assert uid in Indexed(w, CleanEnv());
      }
    }
  }

  ghost function AfterPasses(cfg: Config, w: World, orders: seq<seq<string>>): World
    decreases |orders|
  {
    if orders == [] then w else AfterPasses(cfg, Reconciled(cfg, w, orders[0], CleanEnv()).world, orders[1..])
  }

  ghost predicate AllComplete(cfg: Config, w: World, orders: seq<seq<string>>)
    decreases |orders|
  {
    orders == [] ||
    (Complete(w, CleanEnv(), orders[0]) && AllComplete(cfg, Reconciled(cfg, w, orders[0], CleanEnv()).world, orders[1..]))
  }

  // The backlog drains by exactly cap contacts a run, whichever contacts each run picks.
  lemma {:induction false} BacklogDrains(cfg: Config, w: World, orders: seq<seq<string>>)
    requires cfg.cap > 0 && AllComplete(cfg, w, orders)
    ensures |Waiting(AfterPasses(cfg, w, orders))| == Max(0, |Waiting(w)| - |orders| * cfg.cap)
    decreases |orders|
  {
    if orders != [] {
      DrainOnce(cfg, w, orders[0]);
      BacklogDrains(cfg, Reconciled(cfg, w, orders[0], CleanEnv()).world, orders[1..]);
      DrainArithmetic(|Waiting(w)|, cfg.cap, |orders[1..]|);
    }
  }

  lemma DrainArithmetic(k: nat, cap: nat, n: nat)
    ensures Max(0, Max(0, k - cap) - n * cap) == Max(0, k - (n + 1) * cap)
  {
    assert (n + 1) * cap == n * cap + cap && n * cap >= 0;
  }

  // ---- With failures ----------------------------------------------------------------

  lemma StoreSize(w: World, uid: string, c: Contact)
    requires uid in w.proton ==> c.proton.Some?
    ensures |Store(w, uid, c).proton| == |w.proton| + (if c.proton.Some? && uid !in w.proton then 1 else 0)
  {
    var m := Store(w, uid, c).proton;
    if c.proton.Some? {
      assert m.Keys == w.proton.Keys + {uid};
      assert |m| == |m.Keys| && |w.proton| == |w.proton.Keys|;
    } else {
      assert m == w.proton;
    }
  }

  // Creates in a trace that went through without the program hearing of it.
  function LostIn(trace: seq<(string, Effect)>): nat {
    if trace == [] then 0
    else LostIn(trace[..|trace| - 1]) + if LostCreate(trace[|trace| - 1].1) then 1 else 0
  }

  predicate LostCreate(e: Effect) {
    e.Create? && e.reply == Lost
  }

  lemma {:induction false} LostInConcat(a: seq<(string, Effect)>, b: seq<(string, Effect)>)
    ensures LostIn(a + b) == LostIn(a) + LostIn(b)
    decreases |b|
  {
    if b == [] {
      assert a + b == a;
    } else {
      LostInConcat(a, b[..|b| - 1]);
      assert (a + b)[..|a + b| - 1] == a + b[..|b| - 1];
    }
  }

  lemma {:induction false} NoneLost(trace: seq<(string, Effect)>)
    requires forall t | t in trace :: !LostCreate(t.1)
    ensures LostIn(trace) == 0
  {
    if trace != [] {
      NoneLost(trace[..|trace| - 1]);
    }
  }

  lemma EffectsNotLost(uid: string, effects: seq<Effect>)
    requires forall e | e in effects :: !LostCreate(e)
    ensures LostIn(Tagged(uid, effects)) == 0
  {
    var t := Tagged(uid, effects);
    forall x | x in t ensures !LostCreate(x.1) {
      var i :| 0 <= i < |t| && t[i] == x;
      assert effects[i] in effects;
    }
    NoneLost(t);
  }

  // Creates of one visit: counted, lost, or not made.
  lemma VisitLost(cfg: Config, c: Contact, full: bool, out: Outcome, uid: string)
    ensures var v := VisitContact(cfg, c, full, out);
            && LostIn(Tagged(uid, v.effects)) == (if Creating(c, full, out) && out.create == Lost then 1 else 0)
            && v.created == (Creating(c, full, out) && out.create == Done)
  {
    var v := VisitContact(cfg, c, full, out);
    if OnProton(c, out) && OnCardDAV(c) {
      VisitBothIssues(cfg, c, out);
      EffectsNotLost(uid, v.effects);
    } else if Creating(c, full, out) {
      var t := Tagged(uid, v.effects);
      assert t[..1] == [(uid, Create(c.carddav.value, out.create))];
      LostInConcat(t[..1], t[1..]);
      assert t == t[..1] + t[1..] && LostIn(t[..1][..0]) == 0;
      NoneLost(t[1..]);
    } else {
      EffectsNotLost(uid, v.effects);
    }
  }

  lemma VisitAppears(cfg: Config, c: Contact, full: bool, out: Outcome)
    ensures var v := VisitContact(cfg, c, full, out);
            v.contact.proton.Some? <==> c.proton.Some? || (Creating(c, full, out) && Took(out.create))
  {
    if OnProton(c, out) && OnCardDAV(c) {
      VisitBothStops(cfg, c, full, out);
    }
  }

  // What a pass puts on Proton, for every order and every environment: with complete
  // indexes the store grows by the creates counted plus the creates whose reply was lost,
  // and the cap bounds the former alone. A missed contact is created twice, so without
  // complete indexes the sum is an upper bound. Under a cap, at most cap contacts appear
  // exactly when created + lost <= cap.
  lemma {:induction false} GrowthExact(cfg: Config, w: World, order: seq<string>, env: Environment)
    ensures var p := Reconciled(cfg, w, order, env);
            && |w.proton| <= |p.world.proton| <= |w.proton| + p.created + LostIn(p.trace)
            && ((forall uid :: env(uid).fetch) ==> |p.world.proton| == |w.proton| + p.created + LostIn(p.trace))
            && (cfg.cap > 0 ==> p.created <= cfg.cap)
  {
    if order != [] {
      var rest, last := order[..|order| - 1], order[|order| - 1];
      GrowthExact(cfg, w, rest, env);
      var p := Reconciled(cfg, w, rest, env);
      if !p.aborted {
        var c, v := Look(p.world, last), VisitIn(cfg, p, last, env);
        VisitLost(cfg, c, CapReached(cfg, p.created), env(last), last);
        VisitAppears(cfg, c, CapReached(cfg, p.created), env(last));
        LostInConcat(p.trace, Tagged(last, v.effects));
        StoreSize(p.world, last, v.contact);
      }
    }
  }

  lemma {:induction false} NoReplyLost(cfg: Config, w: World, order: seq<string>, env: Environment)
    requires forall uid :: env(uid).create != Lost
    ensures LostIn(Reconciled(cfg, w, order, env).trace) == 0
  {
    if order != [] {
      var rest, last := order[..|order| - 1], order[|order| - 1];
      NoReplyLost(cfg, w, rest, env);
      var p := Reconciled(cfg, w, rest, env);
      if !p.aborted {
        var v := VisitIn(cfg, p, last, env);
        VisitLost(cfg, Look(p.world, last), CapReached(cfg, p.created), env(last), last);
        LostInConcat(p.trace, Tagged(last, v.effects));
      }
    }
  }

  // When no reply to a create is lost, at most cap contacts appear and each is counted.
  lemma CapHolds(cfg: Config, w: World, order: seq<string>, env: Environment)
    requires forall uid :: env(uid).create != Lost
    ensures var p := Reconciled(cfg, w, order, env);
            && |p.world.proton| <= |w.proton| + p.created
            && ((forall uid :: env(uid).fetch) ==> |p.world.proton| == |w.proton| + p.created)
            && (cfg.cap > 0 ==> p.created <= cfg.cap)
  {
    GrowthExact(cfg, w, order, env);
    NoReplyLost(cfg, w, order, env);
  }

  function LostCreates(): Environment {
    _ => CLEAN.(create := Lost)
  }

  lemma LostCreateVisit(cfg: Config, c: Contact)
    ensures var v := VisitContact(cfg, c, false, CLEAN.(create := Lost));
            && !v.created && !v.deferred && !v.aborted
            && (c.proton.None? && OnCardDAV(c) && c.base.None? ==> v.contact.proton.Some?)
            && (c.proton.Some? ==> v.contact.proton.Some?)
  {
    if c.proton.Some? && OnCardDAV(c) {
      assert VisitContact(cfg, c, false, CLEAN.(create := Lost)) == VisitContact(cfg, c, false, CLEAN);
      CleanBoth(cfg, c);
    }
  }

  // The other extreme: a pass that loses every reply creates every waiting contact it
  // visits and counts none, whatever the cap.
  lemma {:induction false} LostRepliesEscapeCap(cfg: Config, w: World, order: seq<string>)
    requires Distinct(order)
    ensures var p := Reconciled(cfg, w, order, LostCreates());
            && p.created == 0 && p.deferred == 0 && !p.aborted
            && forall uid | uid in WaitingIn(w, order) :: uid in p.world.proton
  {
    if order != [] {
      var rest, last := order[..|order| - 1], order[|order| - 1];
      LostRepliesEscapeCap(cfg, w, rest);
      var p := Reconciled(cfg, w, rest, LostCreates());
      assert last !in rest;
      Untouched(cfg, w, rest, LostCreates(), last);
      LostCreateVisit(cfg, Look(w, last));
      var v := VisitIn(cfg, p, last, LostCreates());
      forall uid | uid in WaitingIn(w, order) ensures uid in Store(p.world, last, v.contact).proton {
        LookStore(p.world, last, v.contact, uid);
        if uid != last {
          assert uid in WaitingIn(w, rest);
        }
      }
    }
  }
}
