// What one synchronisation pass does to one contact, as a function of the replies of
// the servers and the database. A pass over the address book is a fold of these visits.
module SyncModel {
  import opened Vcard
  import opened ThreeWayMerge
  import opened MergeLaws

  // A row of the database: each side's last-synced card.
  datatype Bases = Bases(proton: Card, carddav: Card)

  // Everything known about one UID. `twin` records that a second Proton contact with
  // this UID has been created; `proton` is then the older of the two.
  datatype Contact = Contact(proton: Option<Card>, carddav: Option<Card>, base: Option<Bases>, twin: bool)

  // How a write ends: it happened, it did not, or it happened and the reply was lost.
  // A process killed right after a write is the last case.
  datatype Reply = Done | Refused | Lost

  predicate Took(r: Reply) {
    r != Refused
  }

  // The environment's answers during one visit.
  datatype Outcome = Outcome(
    fetch: bool,          // the card was read while indexing Proton
    lookup: bool,         // the database row could be read
    put: Reply,           // CardDAV PutContact
    create: Reply,        // Proton CreateContact
    createReread: bool,   // GetContactVCard after a create
    update: Reply,        // Proton UpdateContact
    updateReread: bool,   // GetContactVCard after an update
    save: Reply)          // UpsertContact

  const CLEAN := Outcome(true, true, Done, Done, true, Done, true, Done)

  // Writes issued, with their replies.
  datatype Effect =
    | Put(card: Card, reply: Reply)
    | Create(card: Card, reply: Reply)
    | Update(card: Card, reply: Reply)
    | Save(bases: Bases, reply: Reply)

  // policy and cap are the user's settings, rev parses REV text, and norm(c) is the card
  // Proton returns after being sent c.
  datatype Config = Config(policy: Policy, cap: int, rev: RevParser, norm: Card -> Card)

  datatype Visit = Visit(contact: Contact, effects: seq<Effect>, created: bool, deferred: bool, aborted: bool)

  // An absent row reads as two empty cards.
  function ProtonBase(c: Contact): Card {
    if c.base.Some? then c.base.value.proton else NO_CARD
  }

  function CardDAVBase(c: Contact): Card {
    if c.base.Some? then c.base.value.carddav else NO_CARD
  }

  function ProtonCard(c: Contact): Card {
    if c.proton.Some? then c.proton.value else NO_CARD
  }

  function CardDAVCard(c: Contact): Card {
    if c.carddav.Some? then c.carddav.value else NO_CARD
  }

  // The CardDAV index skips a card that cannot be encoded, that is, one without VERSION.
  predicate Encodable(card: Card) {
    At(card, VERSION) != []
  }

  function Versions4(c: Contact): Versions
    requires c.proton.Some? && c.carddav.Some?
  {
    Versions(ProtonBase(c), CardDAVBase(c), c.proton.value, c.carddav.value)
  }

  ghost function Merged(cfg: Config, c: Contact): Card
    requires c.proton.Some? && c.carddav.Some?
  {
    PolicyMerge(cfg.rev, cfg.policy, Versions4(c))
  }

  function SaveBases(c: Contact, bases: Bases, out: Outcome, effects: seq<Effect>, created: bool): Visit {
    Visit(if Took(out.save) then c.(base := Some(bases)) else c,
          effects + [Save(bases, out.save)], created, false, out.save != Done)
  }

  function Idle(c: Contact): Visit {
    Visit(c, [], false, false, false)
  }

  // ---- reconcile --------------------------------------------------------------------

  // Second half of reconcileBoth: the Proton write, the re-read and the bases.
  ghost function PushMerged(cfg: Config, c: Contact, merged: Card, out: Outcome, effects: seq<Effect>): Visit
    requires c.proton.Some?
  {
    var pr := c.proton.value;
    if Differs(merged, pr, ProtonBase(c)) then
      var sent := effects + [Update(merged, out.update)];
      var c' := if Took(out.update) then c.(proton := Some(cfg.norm(merged))) else c;
      if out.update != Done then Visit(c', sent, false, false, false)
      else SaveBases(c', Bases(if out.updateReread then cfg.norm(merged) else pr, merged), out, sent, false)
    else SaveBases(c, Bases(pr, merged), out, effects, false)
  }

  // reconcileBoth from the merge result on.
  ghost function WriteBoth(cfg: Config, c: Contact, merged: Card, out: Outcome): Visit
    requires c.proton.Some? && c.carddav.Some?
  {
    if Same(merged, c.carddav.value) then PushMerged(cfg, c, merged, out, [])
    else
      var c' := if Took(out.put) then c.(carddav := Some(merged)) else c;
      if out.put != Done then Visit(c', [Put(merged, out.put)], false, false, true)
      else PushMerged(cfg, c', merged, out, [Put(merged, out.put)])
  }

  ghost function VisitBoth(cfg: Config, c: Contact, out: Outcome): Visit
    requires c.proton.Some? && c.carddav.Some?
  {
    WriteBoth(cfg, c, Merged(cfg, c), out)
  }

  function CopyToCardDAV(c: Contact, out: Outcome): Visit
    requires c.proton.Some?
  {
    var pr := c.proton.value;
    var c' := if Took(out.put) then c.(carddav := Some(pr)) else c;
    if out.put != Done then Visit(c', [Put(pr, out.put)], false, false, true)
    else SaveBases(c', Bases(pr, pr), out, [Put(pr, out.put)], false)
  }

  // Proton's contact after a create; an existing contact (one the index missed) is joined by a twin.
  function WithCreated(cfg: Config, c: Contact, card: Card): Contact {
    if c.proton.Some? then c.(twin := true) else c.(proton := Some(cfg.norm(card)))
  }

  // Create, read back, record the bases; shared by reconcile and the repair command.
  function CreateAndSave(cfg: Config, c: Contact, card: Card, out: Outcome): Visit {
    var c' := if Took(out.create) then WithCreated(cfg, c, card) else c;
    var sent := [Create(card, out.create)];
    if out.create != Done then Visit(c', sent, false, false, false)
    else SaveBases(c', Bases(if out.createReread then cfg.norm(card) else card, card), out, sent, true)
  }

  predicate OnProton(c: Contact, out: Outcome) {
    c.proton.Some? && out.fetch
  }

  predicate OnCardDAV(c: Contact) {
    c.carddav.Some? && Encodable(c.carddav.value)
  }

  // The contact waits to be created on Proton.
  predicate Waits(c: Contact) {
    c.proton.None? && OnCardDAV(c) && c.base.None?
  }

  // The visit takes the branch that creates the contact on Proton.
  predicate Creating(c: Contact, full: bool, out: Outcome) {
    !OnProton(c, out) && OnCardDAV(c) && out.lookup && c.base.None? && !full
  }

  // One iteration of reconcile's loop. `full` says the per-run cap has been reached.
  ghost function VisitContact(cfg: Config, c: Contact, full: bool, out: Outcome): Visit {
    var hasP, hasC := OnProton(c, out), OnCardDAV(c);
    if !hasP && !hasC then Idle(c)
    else if !out.lookup then Idle(c).(aborted := true)
    else if hasP && hasC then VisitBoth(cfg, c, out)
    else if c.base.Some? then Idle(c)
    else if hasP then CopyToCardDAV(c, out)
    else if full then Idle(c).(deferred := true)
    else CreateAndSave(cfg, c, c.carddav.value, out)
  }

  // The card sent by a create, or by a repair's update, becomes Proton's base unread.
  predicate UnreadCreate(out: Outcome) {
    out.create == Done && !out.createReread && Took(out.save)
  }

  predicate UnreadUpdate(out: Outcome) {
    out.update == Done && !out.updateReread && Took(out.save)
  }

  // ---- Effects ----------------------------------------------------------------------

  predicate Writes(e: Effect) {
    !e.Save?
  }

  predicate Quiet(effects: seq<Effect>) {
    forall e | e in effects :: !Writes(e)
  }

  // The card e hands to Proton, if any.
  predicate SendsToProton(e: Effect) {
    e.Create? || e.Update?
  }
}
