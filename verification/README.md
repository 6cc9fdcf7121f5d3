# libaoahid: a verified model

libaoahid turns caller options into HID report descriptors, keeps the input state of each profile, and sends
that state as asynchronous USB transfers to an accessory-mode device. This project models the four parts of
the library that carry its promises, and proves those promises for every option set, every run and every
interleaving that the model describes.

1. **Descriptor compiler and its checkers.** `DescriptorBuilder` emits HID 1.11 short items and a field layout
   in one pass; `validate_generated` and the strict `validate_raw` read the bytes again. The two passes, the two
   checkers and an independent reader written from HID 1.11 sections 6.2.2.2 and 6.2.2.7 are proved to agree, and
   what that reader finds is compared with independent tables of the Usages, flags, collections and fields of every
   profile. What acceptance of a caller-written descriptor means is stated over a reader that refuses nothing.
   (`HidItems`, `HidWalk`, `DescriptorBuilder`, `BuilderFacts`, `GeneratedCheck`, `GeneratedAgreement`, `GeneratedSound`,
   `ReportReader`, `RawCheck`, `RawParser`, `RawTable`, `RawSound`, `RawAgreement`, `GeneratedSpec`, `Sketch`,
   `Factories`, `FactoryResults`, `SpecParts`, `SpecMeanings`)
2. **Report state machines and bit serializer.** A Node is a state machine over mutators, submits, refused
   submits, completions and close, run against a target device that applies what reaches it. A completion is a
   success, a stall, a refusal, or uncertain; for an uncertain one the environment decides whether the target
   applied the report, and the Node never learns it. A claim about "every target state consistent with the
   completions" is therefore a claim over all runs. At the near end a state is compared with the arguments of the
   accepted calls (`CallEffects`), at the far end with what a host that has only the descriptor reads from the
   bytes (`HostView`). (`BitMath`, `BitField`, `NodeModel`, `NodeFacts`, `Serialization`, `SpecFields`, `NodeRun`,
   `CallEffects`, `ReachableReports`, `HostView`, `CloseSafety`, `EdgeRun`, `MouseRun`, `TouchRun`, `TouchStory`,
   `TouchSync`, `TouchTime`, `PenRun`, `PenEdges`, `PollRun`, and the class `NodeObject.LiveNode`)
3. **Transfer pool with reservations, and Context ownership of closing Devices.** (`PoolModel`, `PoolFacts`,
   `PoolRun`, `PoolGuarantee`, `PoolAccount`, `PoolOutcome`, the class `PoolObject.TransferPool`; `ContextGraph` and its class
   `Context`; `DeviceDrain` joins the two)
4. **Bulk Channel.** The ring of slot numbers as interleaved atomic steps and as an object, the waiter, the
   reading and the writing side; reader and writer hold the ring object itself, and ring and waiter are also
   proved together. (`IndexRing`, `WakeUp`, `RingWake`, `BulkReader`, `BulkWriter`)

Code that changes state is a class or a method with a loop, as in the library, and is proved against functions
on values; the runs are sequences of events over those functions. Each class keeps a ghost history and its
`Valid()` says that its fields are what that history of events leads to, so that a theorem over runs is a
theorem about every object. `hide` statements keep each proof to what it needs.

## Findings

Where a stated property fails, a lemma gives the input and another one the exact condition.

| what fails | where | input | exactly when it holds |
|---|---|---|---|
| docs/PROFILES.md:61-63 and docs/LIMITS.md:63-64 say that padding keeps every field within four bytes for every combination of widths; the code refuses some | src/profiles/spec.cpp:599-688, src/hid/validator.cpp:387-393 | `FactoryResults.PaddingDoesNotSaveEveryWidth`: a mouse with a 13-bit X before a 32-bit Y | `FactoryResults.FactoryResult`: a Spec whose bytes fit is made if and only if `KeepsRule(o)`, a condition on the widths alone; always so for keyboard, toggle, gamepad and battery (`AlignedProfilesKeepTheRule`) |
| after an accepted tool change the out-of-range report is at the position the target last had | src/profiles/state.cpp:1177-1198 | `PenRun.StrayDeparture`: an out-of-range sample with the other tool at 90, 90 and then a departure; the pen leaves range at 90, 90 although the target has it at 10, 10 | `PenRun.ToolChangeLeavesRange`: if and only if the caller's last word was not a departure, or the pen did not move; a departure can be accepted then if and only if the changed sample was itself out of range (`DepartWhileChanging`) |
| a reserved transfer is never refused | src/transport/transport.cpp:573-622 | `PoolAccount.LateReservation`: two Nodes without a reservation hold both slots, then a third Node reserves one; its first transfer is refused | `PoolGuarantee.GuaranteeIsExact`: along every later run without a new reservation every reserved transfer is granted if and only if the open claims (each capacity less what is in use) do not exceed the free slots; `NewReservationIsHonoured`: a new reservation leaves that so if and only if the free slots nobody can claim cover it. While every Node has one transfer at a time these are the pool's own numbers (`PoolAccount.AccountDecides`) |
| a generated descriptor is a valid raw descriptor for its own report | src/hid/validator.cpp:787-792, 806-858 | `FactoryResults.DeclaringTouchIsNotRaw`: a touch surface of one contact that declares its contact maximum as a Feature | `FactoryResults.MadeSpecIsRaw`: for a made Spec, if and only if it does not declare the maximum; for any run of the builder, if and only if no Feature is declared and the layout has a field (`RawAgreement.GeneratedIsRaw`) |

## Model

| member | source | states |
|---|---|---|
| HidItems.ItemWriter.Emit | src/hid/item_writer.cpp:39-57 | an item is written whole or not at all, and nothing ever again after the first refusal; what the buffer holds is the encoding of the items accepted so far |
| HidItems.SignedItemExact | src/hid/item_writer.cpp:69-80 | a signed item decodes to its value, and no smaller item could hold it |
| HidItems.MaximumItemExact | src/hid/item_writer.cpp:95-112 | a Logical or Physical Maximum written for an ordered range reads back as that maximum under the reader's rule for signedness |
| HidItems.ItemsRoundTrip | src/hid/item_writer.cpp:39-57 | every item of an emitted list is read back whole, at the byte where the items before it end |
| HidWalk.WalkEncoded | src/hid/validator.cpp:229-330 | for any checker, walking the emitted bytes gives the verdict of walking the emitted items: item boundaries are recovered exactly |
| HidWalk.FieldSpanIsValid | src/hid/validator.cpp:136-151 | looking at no more than eight alignments decides for any count whether every field of the run stays within four bytes |
| BuilderFacts.RunTidy | src/hid/descriptor_builder.cpp:118-188 | over every accepted run of calls the layout tiles the report: fields follow one another without gap or overlap, and agree with the counters kept per report |
| BuilderFacts.TiledVerdict | src/hid/validator.cpp:349-402 | the field checks of a tiled layout can stop at the four-byte rule only |
| DescriptorBuilder.DescriptorBuilder.AddVariable | src/hid/descriptor_builder.cpp:190-245 | the in-place method leaves the builder in the state that the builder function gives, refusals included |
| DescriptorBuilder.DescriptorBuilder.AddRange | src/hid/descriptor_builder.cpp:247-270 | likewise for a Usage range, whose loop appends one layout field per Usage |
| GeneratedCheck.ValidateGenerated | src/hid/validator.cpp:349-402 | the method with its loops gives the verdict function's answer, structure walk included |
| GeneratedAgreement.GeneratedIsAccepted | src/hid/validator.cpp:214-402 | every finished run of builder calls is accepted by `validate_generated`, or refused by the four-byte rule exactly when some field breaks it: no internal-error exit is reachable |
| GeneratedSound.AcceptedMeansConsistent | src/hid/validator.cpp:214-402 | for any descriptor and layout, whatever made them: an accepted layout has its fields end to end within the wire length, and a reader that refuses nothing finds one closed Application collection, the layout's Report ID, only sensible Input items, and exactly as many Input bits as the layout has |
| ReportReader.DescriptorReadsBack | src/hid/descriptor_builder.cpp:30-306 | an independent reader of the emitted bytes recovers every collection with its kind and Usage, all closed, the Report ID, and for every field its position, width, range, Null state, physical extents, Usage Page and Usage, flags and collection, as the calls said, Usage ranges one by one |
| GeneratedSpec.RunCommutes | src/profiles/spec.cpp:154-209 | a run repeated with another capacity, with or without a layout, emits the same items: the second pass always repeats the first |
| GeneratedSpec.BuildGeneratedSpec | src/profiles/spec.cpp:154-209 | the two-pass method ends as `SpecVerdict` says; its exit for passes that differ is there and is never taken |
| Sketch.SketchIsExact | src/hid/descriptor_builder.cpp:30-306 | counting fields and bits without emitting anything predicts the builder's counters and the four-byte rule exactly |
| Sketch.SoundRunFits | src/hid/descriptor_builder.cpp:308-312 | a run that the sketch finds in order is refused if and only if its bytes exceed the capacity |
| FactoryResults.FactoryResult | src/profiles/spec.cpp:154-209 | every accepted option set ends in exactly one of three ways, decided by its byte count and its widths |
| FactoryResults.AlignedProfilesKeepTheRule | src/profiles/spec.cpp:142-147 | `pad_report` makes the four-byte rule unbreakable for keyboard, toggle, gamepad and battery |
| FactoryResults.PaddingDoesNotSaveEveryWidth | src/profiles/spec.cpp:599-688 | a mouse whose X is 13 and whose Y is 32 bits wide is refused, against the documentation |
| FactoryResults.MadeSpecReadsBack | src/profiles/spec.cpp:154-209 | reading the descriptor of a made Spec back recovers its layout, the collections, and what each call meant its fields to be |
| SpecParts.SpecHasItsParts | src/profiles/spec.cpp:599-1482 | apart from padding the layout of a made Spec is, in order, the profile's own list of fields with their ranges, widths, Null states and physical properties: none missing, repeated or added |
| SpecMeanings.DescriptorMeans | src/profiles/spec.cpp:599-1482 | whoever reads the bytes of a made Spec's descriptor finds the profile's collections by kind and Usage, and for every field the serializer fills the Usage Page, Usage, relative and no-preferred flags and collection of an independent table: X and Y of a mouse are relative 0x30 and 0x31, contact i is in the i-th logical collection |
| FactoryResults.MadeSpecIsRaw | src/hid/validator.cpp:861-935 | a made Spec's descriptor is accepted raw with its own one-entry table if and only if it declares no contact maximum, and then with the same requirements |
| FactoryResults.DeclaringTouchIsNotRaw | src/hid/validator.cpp:787-792 | an option set whose Spec is made and whose descriptor is refused as a raw one |
| RawParser.WalkDescriptor | src/hid/validator.cpp:861-915 | the parser object, updated item by item, ends in the state of the item-by-item walk or with its complaint |
| RawAgreement.GeneratedIsRaw | src/hid/validator.cpp:443-935 | an accepted generated descriptor is accepted raw with its one-entry table if and only if it has no Feature and some Input field, and the requirement maxima read from its bytes are those the builder accumulated |
| RawTable.ValidateRaw | src/hid/validator.cpp:861-935 | the method answers with the code and field of the first check that fails, in the order of the checks, accepts exactly what the declarative `RawAccepts` says, and stores the trailing masks |
| RawTable.AcceptedTableIsABijection | src/hid/validator.cpp:806-858 | table entries and the descriptor's Input reports correspond one to one with equal lengths, and numbered and unnumbered reports never coexist under any Push and Pop nesting |
| RawTable.RawSubmitIsUnambiguous | src/api/c_api.cpp:1761-1782 | a submitted raw report matches at most one entry |
| RawTable.AcceptedLengthsAreExact | src/hid/validator.cpp:640-739 | each length is the bytes an independent reader counts for the report's Input items plus the ID byte, and each mask covers exactly the used bits of the last byte |
| RawSound.AcceptedIsLawful | src/hid/validator.cpp:443-935 | a reader that refuses nothing finds in every accepted raw descriptor only lawful Input items: inside an Application collection, 1 to 32 bits, never in a fifth byte, described by Usage Page, Usage and range, the range encodable, units complete, nothing reserved; no report in two Application collections, no number missing; and all collections and pushed Globals closed |
| RawSound.InputIsExact | src/hid/validator.cpp:640-739 | whatever came before, an Input item is accepted if and only if it keeps those rules, stays in the Application collection of its report, and the counters can hold what it adds |
| RawTable.IdsInvariantBytes | src/hid/validator.cpp:523-550 | whatever the descriptor, Push and Pop included, the parser never has numbered and unnumbered reports side by side |
| BitField.ValueFitsIffLossless | src/hid/validator.cpp:184-202 | `value_fits` accepts exactly the ordered ranges every value of which survives encoding and decoding |
| BitField.NullIsDistinctIffEncodingLeft | src/profiles/spec.cpp:111-132 | the Null encoding survives the round trip and lies outside the range exactly when `has_null_encoding` says so |
| BitField.StoreBits | src/profiles/state.cpp:83-111 | the loop over bytes writes the field's number modulo its width and no bit outside the field; a refused value changes nothing |
| Serialization.Serialize | src/profiles/state.cpp:318-540 | the report starts with its ID, every field decodes to its content, all other bits are zero, bytes behind the report stay; what the contents mean is `HostView.HostSeesTheState` |
| HostView.HostSeesTheState | src/profiles/state.cpp:318-540 | a host that has only the descriptor of a made Spec reads, in every field of a report, what the state says about the field's Usage in its collection: a key is 1 exactly when held, a delta is the nearest value of its range, a hat is Null without a direction, place i of a packet is the i-th contact still to send in slot order, a pen out of range shows no switch |
| HostView.EveryReportIsUnderstood | src/profiles/state.cpp:318-540 | in every run, whenever a Node sends, that is so of its report; and until the close-time neutralization the state says what the caller's accepted calls amount to |
| Serialization.ValidateReport | src/profiles/state.cpp:265-316 | the byte-wise check accepts exactly the reports whose fields are in range or Null and whose padding is zero |
| Serialization.CarriedReportIsValid | src/profiles/state.cpp:265-316 | whatever the serializer writes, the check accepts |
| Serialization.NullIsNeverAValue | src/profiles/state.cpp:113-132 | in a serialized report a Null field decodes outside its range if and only if it carries no value |
| SpecFields.MadeSpecOk | src/profiles/spec.cpp:599-1482 | the layout of every made Spec consists of exactly such fields as the serializer fills |
| ReachableReports.EveryReportGoesOut | src/profiles/state.cpp:318-540 | over every run with every completion class, whenever a Node of a made Spec is to send, every content fits its field and the serialized bytes pass the check |
| NodeFacts.MutateKeeps | src/profiles/state.cpp:686-1226 | every mutator of every profile keeps the Node well formed |
| CallEffects.CallDoesWhatItSays | src/profiles/state.cpp:686-1226 | an accepted call changes exactly what its arguments name: the held Usages gain or lose the one Usage, a button number is pressed or not, a hat points where the flags say, a contact is placed, moved or lifted where the sample says, an axis, a pen sample, a departure and a charge likewise |
| CallEffects.StateIsIntended | src/profiles/state.cpp:542-1226 | over every run before the neutralization, whatever is sent, lost or refused, the keys, buttons, directions, axes, contacts, pen sample and charge are those the accepted calls amount to |
| CallEffects.ContactRefusalIsExact | src/profiles/state.cpp:993-1089 | a contact call is refused exactly inside a frame, out of range, for a lift of a contact not down or not yet reported, for an ID whose lift is not yet reported, and beyond the declared number of contacts |
| EdgeRun.RefusalIsExact | src/profiles/state.cpp:686-988 | a call about a key, button, toggle Usage or D-pad is refused exactly when the profile has no such thing, inside a touch frame, or when it would change the control again before its last change was reported |
| NodeFacts.RefusalChangesNothing | src/profiles/state.cpp:686-1226 | a refused mutator changes nothing and leaves nothing new to send |
| NodeModel.RefusedChangesNothing | src/api/c_api.cpp:1638-1724 | a submit that libusb refuses leaves the Node, Scan Time included, exactly as it was |
| NodeRun.RunSteady | src/profiles/state.cpp:542-677 | over every run the Node is well formed and the report in flight is the image of its state |
| NodeObject.LiveNode.Kbd | src/profiles/state.cpp:686-759 | the in-place mutator takes exactly the step of the state machine, whose effect on the held Usages is `CallEffects.CallDoesWhatItSays` |
| NodeObject.LiveNode.MouseMove | src/profiles/state.cpp:761-779 | likewise, both axes or neither |
| NodeObject.LiveNode.PressButton | src/profiles/state.cpp:808-835 | likewise for mouse, gamepad and touchpad buttons |
| NodeObject.LiveNode.GamepadDPad | src/profiles/state.cpp:939-988 | likewise for the D-pad, whose encoding is computed branch by branch |
| NodeObject.LiveNode.TouchContact | src/profiles/state.cpp:993-1089 | likewise for contacts, with the three searches over the slots as loops |
| NodeObject.LiveNode.PenUpdate | src/profiles/state.cpp:1125-1175 | likewise for the pen |
| NodeObject.LiveNode.PenDepart | src/profiles/state.cpp:1177-1198 | likewise for the pen's departure |
| NodeObject.LiveNode.TransferComplete | src/profiles/state.cpp:542-677 | the in-place completion takes exactly the state machine's step, loops over contacts included |
| NodeObject.LiveNode.Neutralize | src/api/c_api.cpp:513-599 | neutralization in place takes exactly the state machine's step |
| NodeObject.LiveNode.SubmitReport | src/api/c_api.cpp:1599-1724 | a submit takes exactly the state machine's steps, and what it hands over carries the image of the state it leaves, which a host reads as `HostView.HostSeesTheState` says |
| NodeObject.LiveNode.PollUntilIdle | src/api/c_api.cpp:601-674 | whatever the Context, the event pump, the pool and the target answer in every round, the loop ends with exactly the answer and the Node of the wait on values; a success means idle, clean, and nothing but successes on the way |
| PollRun.WaitIsExact | src/api/c_api.cpp:601-674 | when nothing goes wrong, transfers being granted or all in use and reports landing or not, the wait succeeds if and only if as many reports land as the state needs (the mouse's fragments, the packets of the frame, two for a tool change, else one) with one more round to see it; otherwise it times out with every round used and exactly the rest missing |
| PollRun.ReachableWaits | src/api/c_api.cpp:601-674 | the only condition on a reachable Node is that its device is present and no error waits to be collected |
| PollRun.CloseIsExact | src/api/c_api.cpp:1816-1877 | when nothing goes wrong a close succeeds if and only if what is in flight and an open frame land in the first wait and the neutral reports (none, one, or the packets of the lifted contacts) in the second; otherwise it answers pending exactly when a report is still in flight |
| NodeObject.LiveNode.Close | src/api/c_api.cpp:1816-1877 | the close ends with exactly the answer and the Node of the close on values, which says when it succeeds (`PollRun.CloseIsExact`); one that succeeds with the device present and a profile other than Battery leaves a target that holds nothing, whatever happened before |
| CloseSafety.RunCovered | src/profiles/state.cpp:551-637 | over every run, with uncertain completions and unknown effects, the Node's bookkeeping covers everything the target may hold |
| CloseSafety.CloseLeavesNothingHeld | src/api/c_api.cpp:456-599 | after any run, neutralization and a close whose reports succeed, every consistent target state is neutral |
| EdgeRun.NoEdgeIsLost | src/profiles/state.cpp:140-207 | for every key by Usage, button by number, D-pad and toggle Usage, and any mix of completions, the changes in consumed reports are the changes that the arguments of the accepted calls ask for, in order but for the last, and the last is missing if and only if it is marked pending |
| EdgeRun.CleanMeansInSync | src/profiles/state.cpp:622-627 | without uncertain completions a Node that is clean is what the target shows |
| PenEdges.NoPenEdgeIsLost | src/profiles/state.cpp:157-179 | for range, tip, tool and barrel switches, without uncertain completions, the changes in the pen's own reports are the changes that the arguments of the accepted calls ask for, in order but for the last, and nothing is missing once no edge is marked |
| MouseRun.MovementIsConserved | src/profiles/state.cpp:386-442 | for any mix of completions pending movement plus what consumed reports carried is the sum of accepted deltas, and never leaves 64 bits |
| MouseRun.ConsumedReportShrinks | src/profiles/state.cpp:559-570 | every consumed report brings every pending axis strictly closer to zero by its bound |
| MouseRun.DrainCount | src/profiles/state.cpp:559-570 | the mouse is clean after exactly as many successful reports as the axis that needs most takes fragments |
| TouchRun.FramesAreWhole | src/profiles/state.cpp:465-497 | the packets of every completed frame carry each active contact once and in slot order, in as few packets as hold them, with one Scan Time and with Contact Count in the first packet only |
| TouchRun.MidFrameIsBusy | src/profiles/state.cpp:993-1089 | in the middle of a frame every change of contacts and buttons is refused as busy |
| TouchStory.ContactsAreSeen | src/profiles/state.cpp:571-597 | every placed contact is seen down in at least one completed frame and lifted in exactly one before its slot is free |
| TouchStory.LiveContacts | src/profiles/state.cpp:209-245 | in every run live contact IDs are distinct and at most the declared maximum |
| TouchSync.CleanTouchIsInSync | src/profiles/state.cpp:571-597 | without uncertain completions, when nothing is left to send, the target holds exactly the contacts that are down, and the last complete frame showed each of them and the buttons as they are now |
| TouchTime.FirstFrameIsZero | src/profiles/state.cpp:583-592 | once a frame has ended with no contact down and no button pressed, the next frame is stamped zero whatever is called in between |
| TouchTime.ScanTimeTellsElapsed | src/api/c_api.cpp:1655-1670 | two frames on one time base differ in Scan Time by the elapsed ticks modulo the field's range |
| PenRun.InvertIsStable | src/profiles/state.cpp:598-608 | two consecutive applied reports with the pen in range show the same tool |
| PenRun.PressureFollowsTip | src/profiles/state.cpp:416-430 | in every run a report without tip has no pressure, and one with tip has some exactly when pressure is declared |
| PenRun.ToolChangeLeavesRange | src/profiles/state.cpp:598-608 | the report after an accepted tool change takes the pen out of range, where the target has it exactly under the stated condition |
| PenRun.DepartWhileChanging | src/profiles/state.cpp:1177-1198 | when a departure is accepted while a tool change waits |
| PenRun.StrayDeparture | src/profiles/state.cpp:1177-1198 | the run in which the pen leaves range at a place it never was |
| PoolRun.OneCallback | src/transport/transport.cpp:178-335 | in every interleaving each acquisition is held once, or owed its one callback, or called back once, or abandoned and never called back; its slot returns to the free stack once |
| PoolRun.DrainIsStable | src/transport/transport.cpp:771-825 | once closing is set and the pool reads drained it stays so, and no callback runs again |
| PoolGuarantee.UnfilledIsBounded | src/transport/transport.cpp:573-731 | the unfilled total is the sum over reservations of capacity less charged slots, and below the free slots plus the uncharged ones in use |
| PoolGuarantee.ShortfallOnlyShrinks | src/transport/transport.cpp:166-245 | no step but a new reservation increases the shortfall |
| PoolGuarantee.ReservedSlotIsFree | src/transport/transport.cpp:652-731 | without a shortfall a present, open Device never refuses a Node its reserved slot |
| PoolGuarantee.GuaranteePersists | src/transport/transport.cpp:624-731 | and that holds along every run without a new reservation |
| PoolGuarantee.GuaranteeIsExact | src/transport/transport.cpp:624-731 | every reserved transfer is granted along every later run without a new reservation if and only if the open claims do not exceed the free slots |
| PoolGuarantee.BrokenPromise | src/transport/transport.cpp:652-731 | otherwise the Nodes only have to ask for what they were promised until one of them is refused as busy |
| PoolGuarantee.NewReservationIsHonoured | src/transport/transport.cpp:573-622 | a new reservation leaves the guarantee if and only if it asks for no more than the free slots nobody can claim |
| PoolAccount.AccountDecides | src/api/c_api.cpp:1599-1635 | while every Node has one transfer at a time the unfilled total is exactly the open claims, so the pool's own numbers decide the guarantee, both for what is reserved and for a new reservation |
| PoolAccount.LateReservation | src/transport/transport.cpp:573-622 | the run, through Nodes alone, in which an accepted reservation cannot be honoured |
| PoolRun.RefusalIsNegative | src/transport/transport.cpp:286-335 | unless the Device is closed between an acquire and its submit, a refused submit tells its callback a negative status, so the Node never takes it for a report that may have arrived |
| PoolOutcome.GrantIsExact | src/transport/transport.cpp:652-731 | a proper request of an open pool is granted if and only if a slot is free and either the Node's own reservation has a place left or more slots are free than reservations may still claim |
| PoolOutcome.ReservingIsExact | src/transport/transport.cpp:573-622 | a Node reserves once, and a reservation is accepted if and only if one slot of the pool stays unreserved |
| PoolOutcome.ClearingIsExact | src/transport/transport.cpp:624-650 | a reservation is given back if and only if no slot is in use under it, and no other reservation is touched |
| PoolOutcome.SubmitIsReported | src/transport/transport.cpp:286-335 | a prepared transfer goes out if and only if it still is what was acquired, the pool is open and libusb takes it; otherwise its slot is free and its owner is owed the very result that the caller gets |
| PoolOutcome.EndIsReported | src/transport/transport.cpp:226-245 | the end of a transfer frees its slot, owes its owner that result, and touches nothing else |
| PoolOutcome.ErrorsShow | src/transport/transport.cpp:204-224 | in every critical section: the first error that ends a transfer shows, an end without one or cancelled by the close shows nothing, and the loss of the device shows always |
| PoolOutcome.ErrorStays | src/transport/transport.cpp:204-224 | an error that shows stays along every run, and only the loss of the device takes its place |
| PoolObject.CountersNeverWrap | src/transport/transport.cpp:166-245 | in no run does an unsigned counter of the pool go below zero or past its bound |
| PoolObject.TransferPool.AcquireSlot | src/transport/transport.cpp:652-731 | the method takes exactly the model's step, and what it returns was free and is prepared |
| PoolObject.TransferPool.SubmitPrepared | src/transport/transport.cpp:286-335 | the method takes exactly the model's step, for every libusb status |
| PoolObject.TransferPool.CancelAll | src/transport/transport.cpp:771-817 | afterwards the pool is closing and no slot is prepared |
| PoolObject.TransferPool.IsDrained | src/transport/transport.cpp:819-825 | the answer, and what a positive one means for every later run |
| IndexRing.PopsInOrder | src/transport/channel.cpp:29-70 | in every interleaving of the atomic steps of producer and consumer, counters wrapping, the values popped are a prefix of the values pushed, and never more are between than cells |
| IndexRing.RefusalsAreExact | src/transport/channel.cpp:40-59 | a push is refused if and only if the queue is full, a pop if and only if it is empty |
| IndexRing.Indexes.Push | src/transport/channel.cpp:40-49 | on the object with its masked cells: the queue grows by the value, or is full and stays |
| WakeUp.NoLostWakeUp | src/transport/channel.cpp:72-99 | in every interleaving, while a thread sleeps although its predicate holds, a publisher is committed to a notification that rouses it |
| RingWake.NobodySleepsOverData | src/transport/channel.cpp:545-547 | ring and waiter together, atomic step by atomic step: while a thread sleeps although an index is in the ring or the Channel is lost, a publisher is committed to a notification that rouses it |
| BulkReader.OneStream | src/transport/channel.cpp:462-549 | bytes returned so far, the unread tail of the current slot and the ready slots in ring order are exactly the payloads of completed transfers; no transfer in flight uses a slot that holds bytes; request mode has at most one slot anywhere |
| BulkReader.NoSlotIsLost | src/transport/channel.cpp:462-549 | while a streaming Channel is not lost, every IN slot is in exactly one place: in flight, ready, or being read; the open, every callback and every read keep this |
| BulkReader.Reader.Open | src/transport/channel.cpp:376-427 | the open submits every slot of a streaming Channel and none of one that reads on request; it fails only on a refusal with nothing in flight, and a later refusal loses the Channel |
| BulkReader.Reader.CopyCurrent | src/transport/channel.cpp:473-490 | exactly as many bytes as there is room for, the next of the slot; an emptied slot of a streaming Channel is in flight again, or the Channel is lost |
| BulkReader.Reader.TakeReady | src/transport/channel.cpp:503-529 | the oldest ready slot becomes the one being read, or goes out again when it is empty, or its error loses the Channel |
| BulkReader.Reader.Callback | src/transport/channel.cpp:179-205 | a completed transfer's slot goes to the end of the ring, whose push never fails, and its bytes to the end of the stream |
| BulkReader.Reader.Request | src/transport/channel.cpp:491-502 | the one transfer of request mode goes out with a whole number of packets that covers the request or fills the buffer |
| BulkReader.Reader.Read | src/transport/channel.cpp:462-549 | a read returns the next part of the stream, and at once whenever there is data; an error or a timeout returns nothing and loses nothing, and on a Channel that is not lost it is the event pump's error or means that every wait was used and nothing is ready |
| BulkWriter.MessageCarries | src/transport/channel.cpp:551-623 | the transfers of a message carry its data in order, and nothing is empty but the closing packet |
| BulkWriter.MessageEndsOnce | src/transport/channel.cpp:572-575 | no transfer before the last ends short, and the last does if and only if termination is enabled or the data does not fill whole packets |
| BulkWriter.Writer.Callback | src/transport/channel.cpp:179-205 | a completed transfer's slot returns to the free ring, whose push never fails; every OUT slot stays in exactly one of free, spare and in flight |
| BulkWriter.Writer.Write | src/transport/channel.cpp:551-623 | on every return exactly the first `written` bytes have been submitted as the beginning of the message, a success has sent all of it, and every OUT slot is in exactly one of free ring, spare and in flight; it stops early only on a loss, an earlier error, an error of the event pump, libusb's refusal, or when every wait was used and no slot was free |
| ContextGraph.OneOwner | src/api/c_api.cpp:857-930 | in every run an opened Device is in exactly one of devices, running closes, graveyard, reaping and freed, and a freed one owes no callback |
| ContextGraph.FreedForever | src/api/c_api.cpp:815-900 | a Device is freed once, and only when its own transfers and all its Channels are drained, and stays so |
| ContextGraph.OpenReserves | src/api/c_api.cpp:1357-1367 | opening keeps the graveyard's reserve if and only if no close runs or there is room already |
| ContextGraph.ReserveHolds | src/api/c_api.cpp:1357-1367 | over every serialized run live, closing and parked Devices never exceed the capacity reserved |
| ContextGraph.ParkingNeverAllocates | src/api/c_api.cpp:902-906 | in a serialized run parking finds room |
| ContextGraph.Context.FinishDevice | src/api/c_api.cpp:1880-2004 | a drained graph is freed, any other is parked |
| ContextGraph.Context.ReapGraveyard | src/api/c_api.cpp:908-930 | afterwards every graph still parked waits for a callback |
| DeviceDrain.FreedIsSilent | src/api/c_api.cpp:815-930 | in every interleaving of the Context's calls with all pools and their callbacks, a freed Device has a drained, closing pool, and no callback of it ever runs again |
| DeviceDrain.ParkedIsOwed | src/api/c_api.cpp:815-821 | a parked Device counts as drained exactly when its own pool and all its Channels are |

## Left out

- Factories.Accepted: some checks of the factories are not modelled: the evidence texts, canonical zeros in disabled fields, and structure sizes. The model accepts more option sets than the library, so its theorems say more.
- RawCheck.RawAccepts: the texts and byte offsets of the complaints are not modelled.
- PenRun.InvertIsStable: runs with uncertain completions are excluded: after one the library itself takes the report for sent, and the claim is false; the same holds for ToolChangeLeavesRange and NoPenEdgeIsLost.
- TouchRun.FramesAreWhole: runs with uncertain completions are excluded: an uncertain packet clears every contact's edge and starts the frame again; the same holds for ContactsAreSeen and CleanTouchIsInSync.
- PollRun.WaitIsExact: rounds in which a submit is refused, a report fails or the event pump errs are excluded from the count; what the wait answers then is the function `Rounds` that the loop is proved against.
- EdgeRun.CleanMeansInSync: runs with uncertain completions are excluded: such a result makes the Node clean although the target may lack the report.
- NodeObject.LiveNode.Close: Battery is excluded, since its reports hold nothing, and so are Raw Nodes, which the library does not neutralize.
- NodeObject.LiveNode.SubmitReport: a submit to a pool that is closed between the acquire and the submit, which completes as cancelled, is excluded: only closing the Device does that, and include/aoahid.h:804-805 has callers serialize it against every Node call; otherwise a refusal is negative (`PoolRun.RefusalIsNegative`). Byte counts and Report ID kept for the log are not modelled.
- BulkReader.Reader.Open: the search for the interface, the claim and the allocation are not modelled, only the submits.
- BulkReader.Reader.Read: the in-flight counter that guards the destructor is not modelled; a deadline is a number of waits.
- BulkWriter.Writer.Write: a deadline is a number of waits.
- ContextGraph.ReserveHolds: holds for the serialized calls that include/aoahid.h:783-784 and 804-805 require; `OverlappingParks` shows why they are required.
- PoolObject.TransferPool.SubmitPrepared: libusb's statuses and their mapping are parameters.
- A dangling reservation token or transfer handle, which the library cannot tell from a valid address, is an index or a number here and is refused as a parameter error.
- Timeouts, clocks and Scan Time ticks are chosen by the environment.
- Memory orders: atomic accesses are sequentially consistent steps.
- Reader and Writer meet USB callbacks between their methods; the interleaving inside a push and a pop is covered for the ring alone.
- HID ID domains, register and unregister requests and their results, Spec reference counts and the latched errors of the Context.
- Discovery, accessory start, opening of Devices and Channels, interface claims and the event thread.
- Raw Nodes beyond the table lookup, and destruction of Nodes and Contexts.
- Diagnostics, log formatting, thread-local error records, C ABI checks and exception guards.
- Language bindings, examples, tools, Android status and Linux event-name evidence.
