# Proton / CardDAV contact synchronisation: a verified model

The project models how contacts are kept in step between Proton and a CardDAV
address book, and proves what survives edits, failures, restarts and repeated runs.

* **Cards** (`Vcard`, `FieldEquality`) are maps from property name to a list of fields.
  Two property groups are compared through a canonical key per field. `ParameterReader`
  says what the vCard decoder leaves in parameter names and values.
* **The merge** (`ThreeWayMerge`, `MergeLaws`) decides property by property, each side
  against its own last-synced base.
* **The synchroniser** has a value-level specification and an object that implements it.
  `SyncModel` says what one pass does to one contact, given the replies of the
  servers and the database (`Outcome`). Every write can be done, refused, or done with the
  reply lost; a process killed between two writes is one of these cases. `AddressBook`
  folds the visits over the UIDs in any order, complete or cut short. `Resync` is
  the repair command; `Aborting` says what ends a run. `Syncer` is a class whose fields are the two stores and the
  database; its methods follow the program statement by statement and are proved to do
  what the specification says.
* **The card splitter** (`CardSplit`, `CardNormal`, `CardBuilder`) divides a card into a
  signed and an encrypted part, folds Apple labels into TYPE and gives each email a vCard
  group of its own. `CardBuilder` does this on shared, mutable field objects; `SplitLaws`
  says what its small steps mean.
* **The rate limiter** (`RateLimiter`) hands out request slots.

`Config.norm` stands for the remote Proton store: `norm(card)` is the card read back after
`card` was sent. The theorems hold for every `norm` with the stated property; two
instances are worked out. `LossyProton` keeps a fixed set of property names.
`NormalisingProton` does the same after a trip through the card splitter; `Churn` and
`MergedLabels` show what that trip does to the synchroniser, `FailedRecovery` where it
breaks recovery. `RacingEdits` and `EditsArrive` follow users' edits, during and between
passes; `DrainingRecovery` follows a backlog that the cap holds back.

## Main results

* A clean pass leaves the book in a state in which any later pass writes nothing, if and
  only if Proton returned unchanged what it kept of each card it was sent.
* A disturbed visit - a failed write, a lost reply, a kill between two writes - followed by
  a clean one ends as an undisturbed visit exactly for the resumable contacts, for every
  Proton store: the prefer-newer winner does not flip, and at each stopping point after the
  update, or the create, merging what Proton returned leaves CardDAV as it is and Proton
  returns the same again. Two kinds of disturbance are outside: an index that misses a
  contact without a base, and a create whose base is recorded unread.
* For a book of such contacts, any number of disturbed passes followed by clean ones, capped
  or not, reach the state of undisturbed ones; one other contact is enough to break this.
  A store that only drops properties never breaks it but for a winner flip. A store that
  normalises does, on an ordinary input: an address typed INTERNET, changed on CardDAV,
  loses its type when the reply to the update is lost.
* A user's edit of a contact at rest, deletions of properties included, reaches CardDAV
  through any such disturbance, and Proton too if Proton has or had the property and keeps
  what it is sent.
* Through every history of edits, deletions, passes and repairs, no pass and no repair
  alters a property of an indexed CardDAV card that Proton does not model, with four
  exceptions, each characterised exactly: a create whose card is recorded as Proton's base
  without being read back; the same after a repair's update; a CardDAV card without
  VERSION, which the index skips and a copy from Proton may overwrite; and a CardDAV edit
  that falls into a pass, after its index was read and before its put.
* An edit that races with a pass is gone without a trace if the pass writes that side, and
  otherwise as if made after the pass.
* A contact that was ever synchronised is never created on Proton again by a pass, whatever
  fails.
* Retrying a merge gives the same merge, for all policies, except when a CardDAV card
  without REV beats a Proton REV older than Go's zero time; the condition is exact, an
  input is given, and a run stopped in that state does end differently.
* On decoded fields without NUL, field comparison is multiset equality of field contents, a
  value-less parameter counting as an empty one. A NUL inside a value breaks it.
* A run goes on after every refused or lost update and create; only an unreadable database
  row and an unconfirmed put or save end it. A repair stops only when a base cannot be saved.
* A pass lets Proton grow by the creates it counts plus the creates whose reply is lost;
  the per-run cap bounds only the former.
* A contact created on a normalising Proton is sent again on every later clean run for ever,
  or on none, exactly as its card does not or does survive the card splitter; a card without
  FN first takes over the name that Proton derives.
* Emails keep their labels through a merge exactly when emails and labels come from the
  same side or both sides label those groups alike; otherwise labels cross.
* The limiter's slots are the earliest possible. The advertised rate of p per minute is
  kept exactly when p divides a minute.

Where documentation and code differ, the code is followed. `newRateLimiter` is documented
as allowing `perMinute` requests per minute; `RateKeptExactly` shows for which rates that is
true. The repository's README calls the lossy round trip safe; `UnreadCreateStrips`,
`UnreadRepairStrips`, `UnversionedCard` and `UnmodelledEditReverts` give the cases in which
it is not.

## Assumptions

* Every card has a UID, unique on its side; stores are keyed by UID. A second Proton
  contact created for a UID that an index missed is recorded as a `twin`.
* Proton cards carry VERSION, since they are read through `Cards.Merge`, which supplies it.
  A CardDAV card without VERSION cannot be encoded and is therefore not indexed.
* Edits that race with a pass fall between its reading the indexes and its writes; nothing
  else happens between a write and the re-read after it. A repair is not raced by edits.
* Property and parameter names are upper case, as the decoder makes them; the
  case-insensitive search for X-ABLabel then finds the one key `X-ABLABEL`.
* `RevParser` gives the instant of a REV text; the time layouts are not modelled.

## Model

| member | source | states |
|---|---|---|
| FieldEquality.ComputeKey | internal/vcardsync/merge.go:321-337 | the key built in loops over a randomly ordered parameter map is the field's canonical key, whatever the order |
| FieldEquality.ComputeFieldKeys | internal/vcardsync/merge.go:319-341 | the keys come out as the sorted list of the fields' canonical keys |
| FieldEquality.CompareFields | internal/vcardsync/merge.go:306-317 | comparing the sorted keys one by one decides whether the two groups have the same keys equally often |
| FieldEquality.FieldsEqualIsMultisetEquality | internal/vcardsync/merge.go:304-341 | on separator-free fields with no empty parameter, the comparison holds exactly when the groups are equal as multisets of (value, parameter name to multiset of values); order and group are ignored and nothing else |
| FieldEquality.SameContentIsEqual | internal/vcardsync/merge.go:304-306 | with no restriction at all, groups with the same contents always compare equal |
| FieldEquality.DecodedFieldsEqual | internal/vcardsync/merge.go:304-341 | on decoded fields without NUL, the comparison holds exactly when the groups are equal as multisets of contents, a value-less parameter read as one empty value; without value-less parameters, exactly when the contents are equal |
| FieldEquality.DecodedKeyExact | internal/vcardsync/merge.go:321-337 | the keys of two decoded fields without NUL are equal exactly when the contents are, a value-less parameter read as one empty value |
| FieldEquality.DecodedSeparable | internal/vcardsync/merge.go:321-337 | for a decoded field, being free of the key's separators comes down to having no NUL and no value-less parameter |
| FieldEquality.NulCollision | internal/vcardsync/merge.go:330-335 | every field with parameters compares equal to a different decoded field, one without parameters whose value contains a NUL |
| FieldEquality.ValuelessCollision | internal/vcardsync/merge.go:330-335 | a value-less parameter compares equal to one with a single empty value, though they differ |
| ParameterReader.FieldsAreDecoded | vendor/github.com/emersion/go-vcard/decoder.go:140-201 | whatever is on the line, no parameter name that is read contains '=' and no parameter value contains a comma |
| ParameterReader.ValuesHaveNoComma | vendor/github.com/emersion/go-vcard/decoder.go:196-199 | splitting at commas before resolving escapes leaves no comma in any value, quoted or escaped |
| ParameterReader.NameReads | vendor/github.com/emersion/go-vcard/decoder.go:144-154 | a parameter name is read up to its separator, in upper case |
| ParameterReader.ParamsCollect | vendor/github.com/emersion/go-vcard/decoder.go:163 | the values of parameters of the same name are collected in order |
| ParameterReader.ValueReadsBack | vendor/github.com/emersion/go-vcard/encoder.go:79-83 | every text written as a property value is read back unchanged |
| ParameterReader.ParameterReadsBackExactly | vendor/github.com/emersion/go-vcard/decoder.go:196-199 | a text written as a parameter value is read back as one value, unchanged, exactly when it has no comma |
| ParameterReader.SplitJoins | vendor/github.com/emersion/go-vcard/decoder.go:196 | joining the parts of a split with commas gives the text back |
| FieldEquality.KeyIdentifies | internal/vcardsync/merge.go:321-337 | keys of separator-free fields are equal exactly when the fields' contents are |
| ThreeWayMerge.SetIdentity | internal/vcardsync/merge.go:282-292 | the named property becomes the primary's value, or else the fallback's, or stays as it was when neither has one, and the result says which; no other property changes |
| ThreeWayMerge.PickValue | internal/vcardsync/merge.go:101-129 | the switch yields the chosen value and reports a conflict exactly when both sides changed to different values |
| ThreeWayMerge.ThreeWay | internal/vcardsync/merge.go:90-148 | for every iteration order the merged card is the per-property merge, and the conflict list names each conflicting property once |
| ThreeWayMerge.ThreeWayByPolicy | internal/vcardsync/merge.go:165-199 | the winner passed to the merge is the policy's, prefer-newer comparing REV with ties to Proton |
| ThreeWayMerge.EqualCards | internal/vcardsync/merge.go:203-218 | decides whether two cards agree on every property name |
| ThreeWayMerge.ProtonRelevantDiff | internal/vcardsync/merge.go:224-246 | decides whether some property other than VERSION that Proton has, or had at the last sync, differs |
| MergeLaws.MergeRules | internal/vcardsync/merge.go:74-82 | a change on one side wins, deletions included; equal values are kept; conflicts go to the winner; an unchanged property keeps CardDAV's value, or Proton's if CardDAV has none |
| MergeLaws.ConflictsExact | internal/vcardsync/merge.go:106-116 | the conflicting names are exactly those on which the two winners give different values |
| MergeLaws.NoConflictNoWinner | internal/vcardsync/merge.go:90-148 | there is no conflict exactly when both winners give the identical card |
| MergeLaws.PolicyDecides | internal/vcardsync/merge.go:183-193 | each conflicting property goes to CardDAV if it is preferred, or if newer wins and CardDAV's REV is strictly later, and otherwise to Proton |
| MergeLaws.NewerCardWins | internal/vcardsync/merge.go:140-145 | under prefer-newer with different instants, all conflicting values come from the newer card, and the merged REV too if it has one |
| MergeLaws.RevTimeExactly | internal/vcardsync/merge.go:265-278 | a card's instant is that of its first REV, and the zero time if it has none or none that parses |
| MergeLaws.IdentityKept | internal/vcardsync/merge.go:136-139 | UID and VERSION are CardDAV's, or else Proton's, whoever wins, and VERSION is never missing |
| MergeLaws.RetryAbsorbed | internal/vcardsync/merge.go:141-145 | merging again with the result in place of CardDAV's card gives the same card if and only if the winner does not flip, and it flips only under prefer-newer with no CardDAV REV, a Proton REV before the zero time, and a conflict |
| MergeLaws.YearZeroFlips | internal/vcardsync/merge.go:255-280 | an input whose winner flips: Proton stamped with year zero, CardDAV without REV, one conflict; the first merge keeps CardDAV's value and the retry Proton's |
| MergeLaws.UnmodelledKept | internal/vcardsync/merge.go:84-86 | a property absent from Proton's base and card keeps CardDAV's value, REV and UID included |
| MergeLaws.PhantomBaseDeletes | internal/vcardsync/merge.go:117-118 | a property in Proton's base that Proton does not have is deleted when CardDAV did not change it |
| MergeLaws.NothingToWriteExact | internal/vcardsync/merge.go:220-246 | merging leaves nothing to write to either side exactly when CardDAV agrees with Proton on every property Proton has or had, whatever CardDAV's base is |
| MergeLaws.StandsExactly | internal/vcardsync/merge.go:94-145 | merging leaves a CardDAV property as it is exactly when the sides agree, or Proton did not change it while CardDAV has a value or changed it, or both changed it and CardDAV wins; UID and REV have their own rules |
| ContactLaws.CleanBoth | internal/syncer/syncer.go:348-394 | the cards, bases and writes after an unfailed visit to a two-sided contact |
| ContactLaws.CleanVisitConverges | internal/syncer/syncer.go:370-393 | after an unfailed visit in which Proton returned faithfully what it was sent, every property on Proton's card but VERSION equals CardDAV's, whether or not Proton was written |
| ContactLaws.CleanVisitSettles | internal/syncer/syncer.go:288-337 | after an unfailed visit, for every kind of contact, it is at rest exactly when Proton returned faithfully what it was sent |
| ContactLaws.RestIsQuiet | internal/syncer/syncer.go:288-337 | a contact at rest gets no put, create or update, whatever the replies; cards and bases stay the same |
| ContactLaws.SecondPassQuietExact | internal/syncer/syncer.go:358-393 | the second of two clean visits writes nothing if and only if Proton returned faithfully what the first sent |
| ContactLaws.VisitBothStops | internal/syncer/syncer.go:358-393 | the complete list of states in which a visit to a two-sided contact can stop |
| Aborting.VisitAbortsExactly | internal/syncer/syncer.go:282-337 | a visit ends the run exactly when the database row cannot be read, or a put or a save is not confirmed; a refused or lost update or create never does |
| Aborting.AnsweredPassFinishes | internal/syncer/syncer.go:320-325 | a pass whose lookups, puts and saves succeed reaches every contact, whatever becomes of updates, creates and re-reads |
| Aborting.EndedPassStops | internal/syncer/syncer.go:290-292 | a run that has ended visits nobody else |
| Aborting.WritesInTurn | internal/syncer/syncer.go:358-393 | a visit writes CardDAV before Proton before the database, each at most once, and nothing after a write that was not confirmed |
| Aborting.VisitWritesOnly | internal/syncer/syncer.go:288-337 | every put, create and update carries the stated card and is issued exactly under its guard; a saved pair of bases is the stated one |
| Aborting.ForcedAbortsExactly | internal/syncer/syncer.go:475-515 | a repair goes on after every failure but that of recording a base |
| Aborting.ForcedWrites | internal/syncer/syncer.go:475-515 | a repair writes Proton's card to a contact CardDAV lacks and CardDAV's card to every other, and nothing to a contact found nowhere |
| Aborting.SavedRepairFinishes | internal/syncer/syncer.go:454-466 | a repair whose saves succeed reaches every target |
| Recovery.RecoveryExactly | internal/syncer/syncer.go:358-393 | for every Proton store, a clean visit after any tolerable disturbance ends with the same cards and bases as an undisturbed one if and only if the contact is resumable |
| Recovery.InterruptedVisitRecovers | internal/syncer/syncer.go:358-393 | a resumable contact recovers from each tolerable disturbance and stays resumable |
| Recovery.CardsStayExactly | internal/syncer/syncer.go:358-393 | a clean visit leaves both cards alone exactly when every CardDAV property stands in the merge and Proton, if written, returns what it returned before |
| Recovery.UpdateRecoversExactly | internal/syncer/syncer.go:370-393 | after a lost reply to the update, a lost reply to the save, or an update not read back, a rerun ends as an undisturbed visit exactly when it leaves both cards of that stopping point alone |
| Recovery.LostUpdateExactly | internal/syncer/syncer.go:378-384 | after an update whose reply was lost, a rerun keeps a CardDAV property exactly when Proton returned it unchanged, or returned it as in Proton's old base while CardDAV has a value or changed it, or both differ from their bases and CardDAV wins |
| Recovery.SavedExactly | internal/syncer/syncer.go:386-393 | after the bases were recorded, a rerun keeps a CardDAV property exactly when it has a value or Proton returned none |
| Recovery.StaleBaseExactly | internal/syncer/syncer.go:386-393 | after an update that was not read back, a rerun keeps a CardDAV property exactly when Proton returned it unchanged, or as Proton had it before while CardDAV has a value |
| Recovery.CreateRecoversExactly | internal/syncer/syncer.go:319-336 | after a create without, or with, recorded bases a rerun ends as an undisturbed visit exactly when it leaves both cards alone |
| Recovery.FailingReply | internal/syncer/syncer.go:358-393 | a contact that is not resumable has a tolerable disturbance that it does not recover from |
| Recovery.LandedIsResumable | internal/syncer/syncer.go:370-393 | when everything a visit sends comes back agreeing with what Proton keeps and had, the contact is resumable exactly if its winner does not flip |
| Recovery.FlippedRetryDiverges | internal/vcardsync/merge.go:183-193 | when the winner flips, a run stopped right after the CardDAV put and run again ends in another state than an undisturbed run |
| Recovery.ResumeAfterPut | internal/syncer/syncer.go:363-384 | stopping right after the CardDAV put, a rerun merges to the same card and ends the same |
| Recovery.CrashAfterCreate | internal/syncer/syncer.go:319-336 | when a create went through but no base was saved, the next clean visit writes nothing exactly when Proton returned the card faithfully, and then saves the bases the first would have saved |
| ContactSafety.VisitKeepsUnmodelled | internal/syncer/syncer.go:288-337 | given that Proton's base was read back, no visit, with any replies, alters a CardDAV property outside what Proton models; a card without VERSION loses them all when it is overwritten, and only then |
| ContactSafety.UnversionedCard | internal/syncer/syncer.go:584-590 | a CardDAV card without VERSION becomes Proton's card exactly when the contact is indexed on Proton, has no base and the put goes through; otherwise it stays |
| ContactSafety.VisitStaysReadBack | internal/syncer/syncer.go:319-393 | a visit breaks the read-back condition exactly when it creates a card that goes beyond what Proton models and records it unread |
| ContactSafety.PhantomBaseStrips | internal/vcardsync/merge.go:117-118 | when the card sent stands in for Proton's base, the next clean visit gives CardDAV Proton's copy of every mergeable property, deleting exactly those Proton lacks |
| ContactSafety.UnreadCreateStrips | internal/syncer/syncer.go:327-334 | after a create whose re-read failed, the next clean visit makes each mergeable CardDAV property equal to Proton's copy, deleting exactly those that Proton dropped |
| ContactSafety.UnreadUpdateConflicts | internal/syncer/syncer.go:386-390 | after an update whose re-read failed, a later CardDAV edit is reported as a conflict on exactly the properties that the update changed on Proton and the edit sets to something new |
| ContactSafety.OneSidedEditIsNoConflict | internal/syncer/syncer.go:385-393 | after an unfailed visit an edit on CardDAV alone conflicts with nothing |
| ContactSafety.FirstValueWaits | README.md:120-122 | after an unfailed visit the sides agree on a property Proton can keep exactly when Proton was written, already had it in card or base, or nobody has it |
| ContactSafety.CreatesBalance | internal/syncer/syncer.go:306-326 | with a complete index, creates that reach Proton balance the contacts that appear there |
| ContactSafety.NoResurrection | internal/syncer/syncer.go:293-311 | a contact with a base that is missing, or unreadable, on one side is left exactly as it is |
| ContactSafety.TwinExact | internal/syncer/syncer.go:560-564 | a second Proton contact for a UID appears exactly when the index missed a contact without base and a create went through |
| AddressBook.PassPointwise | internal/syncer/syncer.go:272-338 | a pass over distinct UIDs does to each UID either nothing or one visit from its state before the pass, whatever the order |
| AddressBook.TraceOrigin | internal/syncer/syncer.go:272-338 | every write of a pass is a write of one visit to that UID as it was before the pass |
| Quiescence.CleanPassSettles | internal/syncer/syncer.go:250-344 | after a complete, clean, undeferred pass every contact is at rest if and only if Proton returned faithfully everything it was sent |
| Quiescence.SecondPassQuiet | internal/syncer/syncer.go:250-344 | the second of two clean passes issues no put, create or update if and only if the first was answered faithfully, for every mix of contacts and every order |
| Quiescence.RestPassQuiet | internal/syncer/syncer.go:250-344 | once every contact is at rest, every pass with any replies, order and stopping point writes nothing and changes nothing but equal bases |
| CapDraining.CleanPassCounts | internal/syncer/syncer.go:312-326 | a clean pass creates the smaller of the cap and the number of waiting contacts visited, and defers the others, in any order |
| CapDraining.DrainOnce | internal/syncer/syncer.go:271-326 | a complete clean pass leaves max(0, k - cap) of k waiting contacts, or none without a cap |
| CapDraining.BacklogDrains | internal/syncer/syncer.go:312-318 | after r complete clean passes exactly max(0, k - r*cap) contacts still wait |
| CapDraining.GrowthExact | internal/syncer/syncer.go:312-326 | for every order and all replies, with complete indexes Proton grows by exactly the creates counted plus the creates whose reply was lost, and the cap bounds the counted ones; with incomplete indexes the sum is an upper bound |
| CapDraining.CapHolds | internal/syncer/syncer.go:315-326 | whatever else fails, if no reply to a create is lost, at most cap contacts appear on Proton in a pass and each is counted |
| CapDraining.LostRepliesEscapeCap | internal/syncer/syncer.go:319-326 | from any state, a pass that loses every reply to a create creates every waiting contact it visits and counts none |
| Interruptions.DisturbedPassesRecover | internal/syncer/syncer.go:250-394 | if every contact is resumable and no attempt misses a contact without a base or records an unread create, then after any sequence of disturbed passes a complete clean pass that defers nothing leaves every contact as such a pass from the start does |
| Interruptions.OthersDoNotRecover | internal/syncer/syncer.go:250-394 | for a contact that is not resumable, one disturbed visit, the rest of the book untouched, changes where a clean pass ends |
| Interruptions.NeverRecreated | internal/syncer/syncer.go:293-311 | a contact with a base is never created on Proton again and gets no second Proton contact, over any number of passes with any replies, even when it is missing or cannot be read; its row stays |
| DrainingRecovery.DrainedBookRecovers | internal/syncer/syncer.go:312-326 | under the premises of recovery, after disturbed passes and then enough complete clean passes for the cap to let the backlog through, every contact is where one clean visit from the start takes it |
| DrainingRecovery.DrainedOrWaiting | internal/syncer/syncer.go:312-326 | while the cap holds contacts back, each contact is either there already or still waits, untouched |
| Interruptions.CreatedAtMostOnce | internal/syncer/syncer.go:306-336 | over any number of passes with complete Proton indexes, at most one create per UID reaches Proton, and none for a contact that was there |
| History.HistoriesAreLossless | internal/vcardsync/merge.go:84-86 | for any one contact, in every history of edits, deletions, passes, repairs and edits that race with passes, in which no base of that contact is recorded unread and its CardDAV card is not edited during a pass, each pass and repair keeps all properties of its indexed CardDAV card that Proton does not model |
| History.GoneStaysGone | internal/syncer/syncer.go:245-249 | a synchronised contact that disappeared from one side before a pass never comes back there until a user or a repair asks for it |
| RacingEdits.CardDAVRace | internal/syncer/syncer.go:251-258 | an edit, addition or deletion on CardDAV after the indexes were read is gone without a trace if a put lands, and otherwise as if made after the writes |
| RacingEdits.ProtonRace | internal/syncer/syncer.go:251-258 | the same for an edit on Proton and a landing update |
| RacingEdits.CardDAVEditSurvives | internal/syncer/syncer.go:363-368 | the racing edit of one CardDAV property survives exactly when no put lands or the merge has the same value |
| RacingEdits.ProtonEditSurvives | internal/syncer/syncer.go:378-384 | the racing edit of one Proton property survives exactly when no update lands or Proton returns the same value |
| RacingEdits.UnmodelledEditReverts | internal/carddav/client.go:124-136 | when a put lands, a property Proton does not model is put back as the index had it |
| RacingEdits.RacedPointwise | internal/syncer/syncer.go:272-338 | a raced pass leaves each contact as the users left it or as one raced visit does |
| RacingEdits.RacedIsReconciled | internal/syncer/syncer.go:250-344 | a pass that nobody races with is the pass |
| History.PassForgetsNothing | internal/syncer/syncer.go:245-249 | no pass removes a contact from either store or a row from the database |
| Resync.ForceRepairs | internal/syncer/syncer.go:469-516 | a forced contact found on either side ends on both with bases equal to the two cards and CardDAV's own card untouched; it is at rest exactly when Proton returned it faithfully |
| Resync.ForcedAt | internal/syncer/syncer.go:454-465 | a clean repair leaves each target as one forcing does, however often it is named; a second Proton contact appears exactly when a target missing from Proton is named more than once |
| Resync.RepairAllRepairs | internal/syncer/syncer.go:437-466 | a clean repair of everything leaves every contact listed on Proton or indexed on CardDAV on both sides, with bases equal to its cards, CardDAV's own card as it was |
| Resync.UnreadRepairStrips | internal/syncer/syncer.go:508-525 | after a repair whose write was not read back, whatever the bases were, the next clean visit gives CardDAV Proton's copy of every mergeable property |
| Resync.UnversionedRepair | internal/syncer/syncer.go:480-497 | a repair replaces a CardDAV card without VERSION by Proton's, base or no base, exactly when the card is fetched and the put goes through |
| Resync.RepairThenQuiet | internal/syncer/syncer.go:405-516 | after a repair without failures, targets named repeatedly included, no later pass writes anything for the targets whose card Proton returned faithfully |
| Syncer.Syncer.ReconcileBoth | internal/syncer/syncer.go:348-394 | the object's state, trace and result are those of a two-sided visit |
| Syncer.Syncer.ReconcileOne | internal/syncer/syncer.go:279-337 | one round of the loop does to the object what the specified visit does to the contact |
| Syncer.Syncer.Reconcile | internal/syncer/syncer.go:250-344 | a run ends in the state of the specified pass over some list of distinct indexed UIDs, over all of them if it finishes; if it does not, a write or lookup failed or it was cancelled |
| Syncer.Syncer.CreateOnProton | internal/syncer/syncer.go:319-336 | create, re-read and save as specified, counting the create only when its reply arrived |
| Syncer.Syncer.ForceContacts | internal/syncer/syncer.go:405-467 | asked for all, the targets are the contacts that Proton lists, or could be read there, and the CardDAV contacts with a VERSION, each once; the command ends in the specified state for the targets it reached, and reaches all unless a save fails or it is cancelled |
| Syncer.Syncer.ProtonByUID | internal/syncer/syncer.go:544-575 | the Proton index holds exactly the contacts whose card could be read |
| Syncer.Syncer.CardDAVIndex | internal/syncer/syncer.go:578-595 | the CardDAV index holds exactly the cards that can be encoded |
| LossyProton.KeepsIsQuiet | internal/syncer/syncer.go:370-393 | with a store that keeps a fixed set of properties, any pass after a clean one writes and changes nothing, with no further condition |
| LossyProton.UnreadCreateLoses | internal/syncer/syncer.go:327-334 | with such a store an unread create costs CardDAV exactly the mergeable properties that Proton does not model |
| LossyProton.UnreadRepairLoses | internal/syncer/syncer.go:508-525 | so does an unread repair, also for a contact that was synchronised before |
| LossyProton.KeepsIsResumable | internal/syncer/syncer.go:358-393 | with such a store a contact whose Proton base was read back is resumable exactly if its winner does not flip, and always if no REV is older than the zero time |
| NormalisingProton.NormalIsFaithful | internal/protonmail/contacts.go:206-247 | a card with nothing to fold, clean or derive comes back faithfully from a store that normalises |
| NormalisingProton.DiffersExactly | internal/protonmail/contacts.go:176-247 | what a normalising store returns shows no difference from the card sent exactly when every modelled property that comes back, or was there before, survives the splitter |
| NormalisingProton.SendsLandExactly | internal/syncer/syncer.go:370-393 | with a normalising store, what a visit sends comes back agreeing with all Proton keeps and had exactly when it survives the splitter in everything Proton returns, has or had |
| NormalisingProton.NormalisingPassesRecover | internal/syncer/syncer.go:250-394 | with dated revisions that condition is enough for disturbed passes followed by a clean one to end as a clean pass from the start |
| NormalisingProton.NormalisingHistoriesAreLossless | internal/vcardsync/merge.go:84-86 | with a normalising store histories are lossless with no further condition |
| NormalisingProton.NormalisingIsQuietExactly | internal/syncer/syncer.go:250-344 | with a normalising store the second of two clean passes writes nothing exactly when every card the first had to send survives the splitter |
| Churn.RewrittenForEverExactly | internal/vcardsync/merge.go:121-128 | a contact created on a normalising store is sent again on every later clean run for ever, or on none, exactly as its card does not or does survive the splitter; a card without FN first takes over the derived name, by one run more |
| Churn.EchoIsResumable | internal/syncer/syncer.go:358-393 | such a contact recovers from every disturbance, whether or not its card survives the splitter |
| FailedRecovery.NormalisationReadAsEdit | internal/syncer/syncer.go:378-384 | with a normalising store, unless CardDAV is preferred, an address typed INTERNET and just changed on CardDAV loses its type when the reply to the update is lost and the run is repeated, while an undisturbed run keeps it |
| Churn.LabelChurns | internal/protonmail/contacts.go:221-225 | a lone email with an Apple label that its TYPE does not already spell out does not survive the splitter |
| Churn.ChurnsForEver | internal/vcardsync/merge.go:121-128 | a settled contact whose only email is typed INTERNET on CardDAV and untyped on Proton is sent to Proton again on every clean run, for ever |
| Churn.CreationChurns | internal/syncer/syncer.go:319-336 | creating a contact whose only email is typed INTERNET leads to that state |
| EditsArrive.EditsReachCardDAV | internal/vcardsync/merge.go:74-82 | after edits of a contact at rest on either or both sides, a clean visit leaves on CardDAV, for every mergeable property, the edited value, deletions included, or the winner's if both sides edited it |
| EditsArrive.EditsAreSent | internal/syncer/syncer.go:374-379 | such a value is sent to Proton whenever Proton has or had the property and shows another value |
| EditsArrive.EditsReachBothSides | internal/syncer/syncer.go:358-393 | both sides then show it, if Proton keeps what it is sent |
| EditsArrive.EditsSurviveDisturbance | internal/syncer/syncer.go:250-394 | after any disturbed passes in between, under the premises of recovery, CardDAV shows it, and so does Proton if it keeps what it is sent |
| MergedLabels.LabelsKeptExactly | internal/vcardsync/merge.go:94-134 | every merged email has the label of its own side exactly when emails and labels are taken from the same side or the two sides label the groups of those emails alike |
| MergedLabels.KeptLabelsAreSent | internal/protonmail/contacts.go:221-244 | each email is then sent to Proton typed by its own label |
| MergedLabels.LabelCrosses | internal/protonmail/contacts.go:221-247 | when one user adds an email and the other a labelled phone in the same group, one clean run types the email on Proton by the phone's label and removes the label |
| CardSplit.CounterBounded | internal/protonmail/contacts.go:231-241 | the search for free group names ends with the counter at most the number of other groups plus the number of emails plus one |
| CardSplit.AllocateGroups | internal/protonmail/contacts.go:221-244 | all emails get non-empty, pairwise distinct groups that no other property uses |
| CardSplit.AllocateKeeps | internal/protonmail/contacts.go:221-244 | each email keeps its place and value, gets the folded label or the cleaned TYPE, and keeps its group exactly when no other property and no earlier email has it |
| CardSplit.MarkersDisjoint | internal/protonmail/contacts.go:352-357 | the two Apple markers cannot overlap, so unwrapping never slices out of range |
| SplitLaws.LabelsExactly | internal/protonmail/contacts.go:337-349 | a group is labelled exactly when an entry of that group has a value, and its label is the decoded value of the last such entry |
| SplitLaws.LabelUnwraps | internal/protonmail/contacts.go:352-357 | a text in Apple's markers is decoded to the text |
| SplitLaws.OtherLabelsStay | internal/protonmail/contacts.go:352-357 | a text that is not in the markers is left alone |
| SplitLaws.DropExactly | internal/protonmail/contacts.go:370-385 | every TYPE value is kept as often as it occurs, except "internet" in any case |
| SplitLaws.DropDistributes | internal/protonmail/contacts.go:374-379 | the kept values stay in order |
| SplitLaws.RetypedExactly | internal/protonmail/contacts.go:361-385 | relabelling an email changes TYPE alone: to the label, or to its values without the generic one, and away if none is left |
| SplitLaws.WithoutDistributes | internal/protonmail/contacts.go:397-402 | the labels that stay keep their order |
| SplitLaws.DerivedNameExactly | internal/protonmail/contacts.go:411-416 | a derived name is the structured name with spaces for semicolons, cut at both ends by spaces and semicolons only; without one it is "Unknown" |
| SplitLaws.ItemReads | internal/protonmail/contacts.go:234 | a fresh group is named "item" and a number |
| SplitLaws.EmailGroupsShared | internal/protonmail/contacts.go:206-209 | in the merged card no email shares its group with another email or with any other property |
| SplitLaws.PartsHold | internal/protonmail/contacts.go:153-199 | the clear-text part holds VERSION, FN, UID and EMAIL only, and every other property is in the encrypted part |
| CardNormal.RoundTripAt | internal/protonmail/contacts.go:176-247 | merging the two parts gives back every property but VERSION, an empty FN, EMAIL groups and TYPEs, and the folded labels |
| CardNormal.PartsDisjoint | internal/protonmail/contacts.go:185-199 | the two parts have VERSION in common and no other property |
| CardNormal.ConsumedExact | internal/protonmail/contacts.go:221-225 | the labels removed are those of groups that an email had and that carry a non-empty label |
| CardNormal.WithoutExact | internal/protonmail/contacts.go:389-408 | a label entry survives exactly when its group was not folded |
| CardNormal.EmailGroupsUnique | internal/protonmail/contacts.go:206-209 | in the merged card all emails have groups of their own, and their number is unchanged |
| CardNormal.IdempotentExactly | internal/protonmail/contacts.go:221-247 | a second trip changes nothing exactly when no email's label reads "internet" |
| CardNormal.NormalIsInvisible | internal/protonmail/contacts.go:221-244 | on a card with nothing to fold, clean or derive the merge sees no difference in any property but VERSION |
| CardBuilder.BuildContactCards | internal/protonmail/contacts.go:176-247 | working in place on the parsed fields, the two parts come out as the split of the card as parsed, and only email fields change |
| CardBuilder.AllocateRefs | internal/protonmail/contacts.go:216-244 | the loop over shared email fields leaves them as the specified allocation |
| CardBuilder.FreshGroup | internal/protonmail/contacts.go:233-240 | the unbounded search stops, with the first free name at or after the counter |
| CardBuilder.DropGenericType | internal/protonmail/contacts.go:370-385 | the field becomes its relabelling without a label, which SplitLaws.RetypedExactly and DropExactly describe; parameters other than TYPE stay |
| CardBuilder.SetEmailType | internal/protonmail/contacts.go:361-366 | TYPE becomes the label alone and every other parameter, the value and the group stay |
| CardBuilder.GroupsUsedExceptEmail | internal/protonmail/contacts.go:310-323 | the set of groups used by properties other than EMAIL |
| CardBuilder.LabelsByGroup | internal/protonmail/contacts.go:337-349 | the loop computes the labels by group that SplitLaws.LabelsExactly describes |
| CardBuilder.RemoveLabelRefs | internal/protonmail/contacts.go:389-408 | the folded labels are removed and the property goes when none is left |
| RateLimiter.NewRateLimiter | internal/protonmail/client.go:27-32 | no limiter for a rate of zero or less, otherwise an interval of a minute divided by the rate, rounded down |
| RateLimiter.Limiter.Reserve | internal/protonmail/client.go:38-45 | each caller gets the slot its arrival order determines, and the counter stays the function of all arrivals |
| RateLimiter.Wait | internal/protonmail/client.go:34-59 | a caller is refused only if cancelled before its slot; its slot is used up either way |
| RateLimiter.SlotClosedForm | internal/protonmail/client.go:38-45 | the last slot is the latest of the start plus n intervals and each arrival plus the intervals after it |
| RateLimiter.SlotsEarliest | internal/protonmail/client.go:17-18 | no schedule that respects arrival times and spacing serves any caller earlier |
| RateLimiter.SlotsFeasible | internal/protonmail/client.go:17-18 | the slots themselves respect arrival times and spacing |
| RateLimiter.WindowBound | internal/protonmail/client.go:17-18 | a window of length w holds at most (w-1)/interval + 1 slots |
| RateLimiter.BurstFills | internal/protonmail/client.go:38-45 | a burst attains that bound |
| RateLimiter.RateKeptExactly | internal/protonmail/client.go:25-32 | for every positive p, at most p slots fall in every minute, for all arrivals, if and only if p divides a minute |
| RateLimiter.RateExcess | internal/protonmail/client.go:25-32 | for rates no larger than the interval in nanoseconds, at most p + 1 slots fall in any minute |

## Left out

* vCard text: parsing, printing and the error branches for text that does not parse; cards are values and a card written is read back as it was sent.
* The rest of Proton's `Cards.Merge`, signing and encryption; the two parts of a card are modelled up to the point where they are encoded.
* UID-less cards and the fallback index keys (Proton contact id, CardDAV path); stores are keyed by UID.
* What becomes of a twin: the model records that a second Proton contact exists for a UID and goes on with the older one.
* A CardDAV put of a card without VERSION, which the client refuses; Proton cards are assumed to carry it.
* HTTP, discovery, login, session resumption, headers, object paths, ETags, card hashes and time stamps of database rows.
* The one-way modes (`syncProtonToCardDAV`, `syncCardDAVToProton`) and the overlay.
* REV time layouts; a parser from text to instants is a parameter.
* Configuration, command line, logging, daemon ticker and signals.
* When a waiting request is released after its timer fires; only granted slot times are modelled.
* Recovery.InterruptedVisitRecovers: not after a missed index entry or an unread create, which ContactSafety.TwinExact and ContactSafety.UnreadCreateStrips describe; Recovery.RecoveryExactly shows that it needs resumable contacts.
* Edits during a repair, and between a write and the re-read that follows it.
* CardNormal.IdempotentExactly: a trip does not pass through vCard text here; in the program the folded label "Work,internet" is written with an escaped comma and read back as two TYPE values (ParameterReader.ParameterReadsBackExactly), of which a second trip drops one.
* CapDraining.CapHolds: requires that no reply to a create is lost; CapDraining.GrowthExact has no such premise.
* ParameterReader.FieldsAreDecoded: names are upper-cased in ASCII only, and the escapes that quoted text resolves are not modelled; any text may result from them.
