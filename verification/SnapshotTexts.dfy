/** What the view shows of a slot, in terms of the texts of its last listing and of what
    was shown before. */
module SnapshotTexts {
  import opened Text
  import opened SlotIds
  import opened CaptureGroups
  import opened SnapshotMerge

  // ---------- the words of a listing ----------

  function Word(text: string): string {
    Upper(Trim(text))
  }

  predicate IsSensorWord(w: string) {
    w == "HALL_SENSOR_ERROR" || w == "SENSOR_ERROR" || w == "ERROR"
  }

  lemma StateWords(text: string)
    ensures StateFromText(text) == Occupied <==> Word(text) == "OCCUPIED"
    ensures StateFromText(text) == SensorFailure <==> IsSensorWord(Word(text))
    ensures StateFromText(text) == NonEvAlert <==> Word(text) == "NON_EV" || Word(text) == "NON_EV_ALERT"
    ensures StateFromText(text) == OvertimeAlert <==> Word(text) == "OVERTIME" || Word(text) == "OVERTIME_ALERT"
    ensures StateFromText(text) == Acked <==> Word(text) == "ACKED"
  {
    assert "OCCUPIED"[1] == 'C' && "OVERTIME"[1] == 'V';
    assert "NON_EV_ALERT"[0] == 'N' && "SENSOR_ERROR"[0] == 'S';
    assert |"ERROR"| == |"ACKED"| && "ERROR"[0] == 'E' && "ACKED"[0] == 'A';
  }

  lemma AlarmWords(text: string)
    ensures ReadAlarm(text) == Names(NonEvViolation)
       <==> Word(text) == "EV_ZONE_VIOLATION" || Word(text) == "NON_EV" || Word(text) == "NON_EV_ALERT"
    ensures ReadAlarm(text) == Names(Overstay)
       <==> Word(text) == "OVERSTAY" || Word(text) == "OVERTIME" || Word(text) == "OVERTIME_ALERT"
    ensures ReadAlarm(text) == Names(SensorError) <==> IsSensorWord(Word(text))
    ensures ReadAlarm(text) == FireMarker <==> Word(text) == "FIRE" || Word(text) == "FIRE_SUSPECTED"
    ensures ReadAlarm(text) != Names(SnapshotMerge.NoAlarm)
  {
    assert |"EV_ZONE_VIOLATION"| == |"HALL_SENSOR_ERROR"| && "EV_ZONE_VIOLATION"[0] == 'E' && "HALL_SENSOR_ERROR"[0] == 'H';
    assert |"NON_EV_ALERT"| == |"SENSOR_ERROR"| && "NON_EV_ALERT"[0] == 'N' && "SENSOR_ERROR"[0] == 'S';
    assert |"OVERTIME_ALERT"| == |"FIRE_SUSPECTED"| && "OVERTIME_ALERT"[0] == 'O' && "FIRE_SUSPECTED"[0] == 'F';
    assert "OVERSTAY"[4] == 'S' && "OVERTIME"[4] == 'T';
  }

  // ---------- what a listing says ----------

  predicate AlarmSaysNonEv(slot: SlotSnapshot) {
    Word(slot.alarm) == "EV_ZONE_VIOLATION" || Word(slot.alarm) == "NON_EV" || Word(slot.alarm) == "NON_EV_ALERT"
  }

  predicate AlarmSaysOverstay(slot: SlotSnapshot) {
    Word(slot.alarm) == "OVERSTAY" || Word(slot.alarm) == "OVERTIME" || Word(slot.alarm) == "OVERTIME_ALERT"
  }

  predicate AlarmSaysSensor(slot: SlotSnapshot) {
    IsSensorWord(Word(slot.alarm))
  }

  predicate AlarmSaysFire(slot: SlotSnapshot) {
    Word(slot.alarm) == "FIRE" || Word(slot.alarm) == "FIRE_SUSPECTED"
  }

  /** The state text counts where the alarm text names no alarm of a slot. */
  predicate LeftToState(slot: SlotSnapshot) {
    !AlarmSaysNonEv(slot) && !AlarmSaysOverstay(slot) && !AlarmSaysSensor(slot)
  }

  predicate SensorFails(slot: SlotSnapshot) {
    AlarmSaysSensor(slot) || (LeftToState(slot) && IsSensorWord(Word(slot.state)))
  }

  /** Something stands on the slot: its alarm or its state says so, and the sensor works. */
  predicate IsTaken(slot: SlotSnapshot) {
    && !SensorFails(slot)
    && (AlarmSaysNonEv(slot) || AlarmSaysOverstay(slot)
        || Word(slot.state) == "OCCUPIED" || Word(slot.state) == "ACKED"
        || Word(slot.state) == "NON_EV" || Word(slot.state) == "NON_EV_ALERT"
        || Word(slot.state) == "OVERTIME" || Word(slot.state) == "OVERTIME_ALERT")
  }

  /** The alarm a listing itself raises; a fire marker raises none. */
  function Raises(slot: SlotSnapshot): AlarmKind {
    if AlarmSaysNonEv(slot) then NonEvViolation
    else if AlarmSaysOverstay(slot) then Overstay
    else if AlarmSaysSensor(slot) then SensorError
    else if AlarmSaysFire(slot) then SnapshotMerge.NoAlarm
    else if IsSensorWord(Word(slot.state)) then SensorError
    else if Word(slot.state) == "NON_EV" || Word(slot.state) == "NON_EV_ALERT" then NonEvViolation
    else if Word(slot.state) == "OVERTIME" || Word(slot.state) == "OVERTIME_ALERT" then Overstay
    else SnapshotMerge.NoAlarm
  }

  /** The alarm of before goes on: a sensor error always, any other one while the slot is taken. */
  predicate GoesOn(previous: Option<Visual>, slot: SlotSnapshot) {
    previous.Some? && (previous.value.alarm == SensorError
                       || (previous.value.alarm != SnapshotMerge.NoAlarm && IsTaken(slot)))
  }

  // ---------- what is shown for it ----------

  lemma SaidOnce(slot: SlotSnapshot)
    ensures !(AlarmSaysNonEv(slot) && AlarmSaysOverstay(slot)) && !(AlarmSaysNonEv(slot) && AlarmSaysSensor(slot))
    ensures !(AlarmSaysOverstay(slot) && AlarmSaysSensor(slot))
    ensures AlarmSaysFire(slot) ==> LeftToState(slot)
  {
    AlarmWords(slot.alarm);
  }

  lemma ShownOccupancy(mapper: Mapper, slot: SlotSnapshot, previous: Option<Visual>)
    ensures Shown(Read(mapper, slot), previous).1.occupancy
         == if SensorFails(slot) then UnknownOccupancy else if IsTaken(slot) then IsOccupied else IsVacant
  {
    StateWords(slot.state);
    AlarmWords(slot.alarm);
  }

  lemma ShownVehicle(mapper: Mapper, slot: SlotSnapshot, previous: Option<Visual>)
    ensures Shown(Read(mapper, slot), previous).1.vehicle
         == if IsTaken(slot) && slot.vehicleTypeKnown then if slot.isEv then Electric else General else UnknownVehicle
  {
    StateWords(slot.state);
    AlarmWords(slot.alarm);
  }

  lemma ShownAlarm(mapper: Mapper, slot: SlotSnapshot, previous: Option<Visual>)
    ensures Shown(Read(mapper, slot), previous).1.alarm
         == if GoesOn(previous, slot) then previous.value.alarm else Raises(slot)
  {
    StateWords(slot.state);
    AlarmWords(slot.alarm);
  }

  lemma ShownAcknowledged(mapper: Mapper, slot: SlotSnapshot, previous: Option<Visual>)
    ensures Shown(Read(mapper, slot), previous).1.acknowledged
       <==> Word(slot.state) == "ACKED" || (GoesOn(previous, slot) && previous.value.acknowledged)
  {
    StateWords(slot.state);
    AlarmWords(slot.alarm);
  }

  function AlertOf(alarm: AlarmKind): SlotState {
    match alarm
    case NonEvViolation => NonEvAlert
    case Overstay => OvertimeAlert
    case SensorError => SensorFailure
    case NoAlarm => Vacant
  }

  function SaidState(slot: SlotSnapshot): SlotState {
    var w := Word(slot.state);
    if w == "OCCUPIED" then Occupied
    else if w == "ACKED" then Acked
    else if IsSensorWord(w) then SensorFailure
    else if w == "NON_EV" || w == "NON_EV_ALERT" then NonEvAlert
    else if w == "OVERTIME" || w == "OVERTIME_ALERT" then OvertimeAlert
    else Vacant
  }

  lemma SaidStateIsRead(slot: SlotSnapshot)
    ensures StateFromText(slot.state) == SaidState(slot)
  {
    StateWords(slot.state);
  }

  lemma ShownState(mapper: Mapper, slot: SlotSnapshot, previous: Option<Visual>)
    ensures Shown(Read(mapper, slot), previous).0
         == if GoesOn(previous, slot) then AlertOf(previous.value.alarm)
            else if LeftToState(slot) then SaidState(slot) else AlertOf(Raises(slot))
  {
    SaidStateIsRead(slot);
    AlarmWords(slot.alarm);
    ShownAlarm(mapper, slot, previous);
    ShownOccupancy(mapper, slot, previous);
  }

  /** The state that goes with an appearance. */
  predicate Fits(state: SlotState, visual: Visual) {
    match visual.alarm
    case NonEvViolation => state == NonEvAlert
    case Overstay => state == OvertimeAlert
    case SensorError => state == SensorFailure
    case NoAlarm => state == if visual.occupancy == IsOccupied then Occupied else Vacant
  }

  /** State and appearance fit, with an alarm or without one, except for an acknowledged slot without an
      alarm, and for a fire marker that hides the alarm of the state text. */
  lemma StateFitsExactly(mapper: Mapper, slot: SlotSnapshot, previous: Option<Visual>)
    ensures
      var (state, visual) := Shown(Read(mapper, slot), previous);
      Fits(state, visual)
      <==> visual.alarm != SnapshotMerge.NoAlarm
           || (SaidState(slot) != Acked
               && !(AlarmSaysFire(slot) && (SaidState(slot) == SensorFailure || SaidState(slot) == NonEvAlert
                                            || SaidState(slot) == OvertimeAlert)))
  {
    ShownState(mapper, slot, previous);
    ShownAlarm(mapper, slot, previous);
    ShownOccupancy(mapper, slot, previous);
    SaidOnce(slot);
    FitsBySaying(slot, previous);
  }

  lemma FitsBySaying(slot: SlotSnapshot, previous: Option<Visual>)
    ensures !GoesOn(previous, slot) && Raises(slot) != SnapshotMerge.NoAlarm ==>
              AlertOf(Raises(slot)) == if LeftToState(slot) then SaidState(slot) else AlertOf(Raises(slot))
    ensures Raises(slot) == SnapshotMerge.NoAlarm ==> LeftToState(slot)
    ensures Raises(slot) == SnapshotMerge.NoAlarm && !AlarmSaysFire(slot) ==>
              SaidState(slot) == Occupied || SaidState(slot) == Acked || SaidState(slot) == Vacant
    ensures LeftToState(slot) && SaidState(slot) == Occupied ==> IsTaken(slot)
    ensures LeftToState(slot) && SaidState(slot) == Vacant ==> !IsTaken(slot)
  {
    StateWords(slot.state);
  }

  // ---------- the whole snapshot ----------

  /** What the view stores for a zone, as one value. */
  datatype Stored = Stored(state: SlotState, visual: Visual, isEv: bool, plate: string, sessionId: int)

  ghost predicate Stores(view: View, id: string, stored: Stored) {
    && id in view.slotPlateNumbers && view.slotPlateNumbers[id] == stored.plate
    && id in view.slotSessionIds && view.slotSessionIds[id] == stored.sessionId
    && (if "EV-" <= id then
          id in view.evSlots && id !in view.parkingSlots
          && view.evSlots[id].slotId == id && view.evSlots[id].isEv == stored.isEv
          && view.evSlots[id].state == stored.state && view.evSlots[id].visual == stored.visual
          && view.evSlots[id].plateNumber == if stored.plate == "" then "-" else stored.plate
        else
          id in view.parkingSlots && id !in view.evSlots
          && view.parkingSlots[id].slotId == id
          && view.parkingSlots[id].state == stored.state && view.parkingSlots[id].visual == stored.visual)
  }

  function StoredFor(listing: Listing, previous: Option<Visual>): Stored {
    var (state, visual) := Shown(listing, previous);
    Stored(state, visual, listing.slot.isEv, listing.slot.plateNumber, listing.slot.sessionId)
  }

  lemma ApplyStores(previous: View, before: View, id: string, listing: Listing)
    requires KindsApart(before) && IsZone(id)
    ensures Stores(Apply(previous, before, id, listing), id, StoredFor(listing, VisualOf(previous, id)))
  {
    KindsDiffer(id);
  }

  lemma ApplyKeepsOthers(previous: View, before: View, id: string, listing: Listing, other: string, stored: Stored)
    requires other != id && Stores(before, other, stored)
    ensures Stores(Apply(previous, before, id, listing), other, stored)
  {
  }

  lemma {:induction false} LastListingIsStored(previous: View, listings: seq<Listing>, id: string, k: nat)
    requires Zoned(listings) && LastListing(listings, id, k)
    ensures Stores(MergeSlots(previous, listings).view, id, StoredFor(listings[k], VisualOf(previous, id)))
  {
    var n := |listings| - 1;
    var before := MergeSlots(previous, listings[..n]);
    MergeTallies(previous, listings[..n]);
    if k == n {
      ApplyStores(previous, before.view, id, listings[n]);
    } else {
      LastListingIsStored(previous, listings[..n], id, k);
      if listings[n].zone.Some? {
        ApplyKeepsOthers(previous, before.view, listings[n].zone.value, listings[n], id, StoredFor(listings[k], VisualOf(previous, id)));
      }
    }
  }

  /** The last slot of the response that stands for a zone. */
  ghost predicate IsLastFor(mapper: Mapper, slots: seq<SlotSnapshot>, id: string, k: nat) {
    && k < |slots| && AcceptedId(mapper, slots[k].slotId) == Some(id)
    && forall i :: k < i < |slots| ==> AcceptedId(mapper, slots[i].slotId) != Some(id)
  }

  /** A zone is shown as the last slot listed for it says: its occupancy, vehicle and acknowledgement, its
      alarm unless an earlier one goes on, and its own plate and session. */
  lemma SnapshotIsShown(previous: View, mapper: Mapper, slots: seq<SlotSnapshot>, id: string, k: nat)
    requires IsLastFor(mapper, slots, id, k)
    ensures
      var slot, was := slots[k], VisualOf(previous, id);
      exists state: SlotState, visual: Visual ::
        && Stores(Merged(previous, Listed(mapper, slots)), id, Stored(state, visual, slot.isEv, slot.plateNumber, slot.sessionId))
        && visual.occupancy == (if SensorFails(slot) then UnknownOccupancy else if IsTaken(slot) then IsOccupied else IsVacant)
        && visual.vehicle == (if !IsTaken(slot) || !slot.vehicleTypeKnown then UnknownVehicle
                              else if slot.isEv then Electric else General)
        && visual.alarm == (if GoesOn(was, slot) then was.value.alarm else Raises(slot))
        && (visual.acknowledged <==> Word(slot.state) == "ACKED" || (GoesOn(was, slot) && was.value.acknowledged))
        && state == (if GoesOn(was, slot) then AlertOf(was.value.alarm)
                     else if LeftToState(slot) then SaidState(slot) else AlertOf(Raises(slot)))
  {
    var slot, was := slots[k], VisualOf(previous, id);
    var listings := Listed(mapper, slots);
    assert listings[k] == Read(mapper, slot);
    assert LastListing(listings, id, k);
    LastListingIsStored(previous, listings, id, k);
    ShownOccupancy(mapper, slot, was);
    ShownVehicle(mapper, slot, was);
    ShownAlarm(mapper, slot, was);
    ShownAcknowledged(mapper, slot, was);
    ShownState(mapper, slot, was);
    var stored := StoredFor(listings[k], was);
    StoredStays(MergeSlots(previous, listings).view, id, stored);
  }

  lemma StoredStays(view: View, id: string, stored: Stored)
    requires Stores(view, id, stored)
    ensures Stores(view.(serverSlotCount := |view.evSlots| + |view.parkingSlots|, hasServerSnapshot := true), id, stored)
  {
  }

  /** With no alarm before and none now, a slot is occupied exactly when its state text says so. */
  lemma QuietSlotIsOccupiedExactly(previous: View, mapper: Mapper, slots: seq<SlotSnapshot>, id: string, k: nat)
    requires IsLastFor(mapper, slots, id, k) && Raises(slots[k]) == SnapshotMerge.NoAlarm && !AlarmSaysFire(slots[k])
    requires VisualOf(previous, id).Some? ==> VisualOf(previous, id).value.alarm == SnapshotMerge.NoAlarm
    ensures
      var view := Merged(previous, Listed(mapper, slots));
      && VisualOf(view, id).Some? && VisualOf(view, id).value.alarm == SnapshotMerge.NoAlarm
      && (VisualOf(view, id).value.occupancy == IsOccupied
          <==> Word(slots[k].state) == "OCCUPIED" || Word(slots[k].state) == "ACKED")
      && (VisualOf(view, id).value.occupancy == IsVacant
          <==> Word(slots[k].state) != "OCCUPIED" && Word(slots[k].state) != "ACKED")
  {
    SnapshotIsShown(previous, mapper, slots, id, k);
  }

  // ---------- images ----------

  lemma {:induction false} NewImagesAreShown(previous: View, listings: seq<Listing>, id: string, k: nat)
    requires LastListing(listings, id, k) && listings[k].slot.images != []
    ensures
      var view := MergeSlots(previous, listings).view;
      id in view.slotImages && view.slotImages[id] == listings[k].slot.images
  {
    var n := |listings| - 1;
    if k < n {
      NewImagesAreShown(previous, listings[..n], id, k);
    }
  }

  /** A listing has images to show: its own, or those of before if the session goes on. */
  predicate HasImages(previous: View, listing: Listing, id: string) {
    && listing.zone == Some(id)
    && (listing.slot.images != []
        || (&& listing.slot.sessionId > 0
            && id in previous.slotSessionIds && previous.slotSessionIds[id] == listing.slot.sessionId
            && id in previous.slotImages && previous.slotImages[id] != []))
  }

  /** Images are shown for a slot exactly when one of its listings has some; with the session they go. */
  lemma {:induction false} ImagesAreShownExactly(previous: View, listings: seq<Listing>, id: string)
    ensures id in MergeSlots(previous, listings).view.slotImages <==> exists listing <- listings :: HasImages(previous, listing, id)
  {
    if listings != [] {
      var n := |listings| - 1;
      ImagesAreShownExactly(previous, listings[..n], id);
      assert listings == listings[..n] + [listings[n]];
      LastHasImages(previous, MergeSlots(previous, listings[..n]), listings[n], id);
    }
  }

  lemma LastHasImages(previous: View, before: Progress, last: Listing, id: string)
    ensures id in MergeSlot(previous, before, last).view.slotImages
       <==> id in before.view.slotImages || HasImages(previous, last, id)
  {
  }

  /** The alarm text of an EV slot names the alarm shown; without one it is the text of the response. */
  lemma {:induction false} AlarmTextIsShown(previous: View, listings: seq<Listing>, id: string, k: nat)
    requires Zoned(listings) && LastListing(listings, id, k) && "EV-" <= id
    ensures
      var view := MergeSlots(previous, listings).view;
      id in view.evSlots
      && view.evSlots[id].alarmText ==
         match view.evSlots[id].visual.alarm
         case NonEvViolation => "NON_EV_ALERT"
         case Overstay => "OVERTIME_ALERT"
         case SensorError => "HALL_SENSOR_ERROR"
         case NoAlarm => if listings[k].slot.alarm == "" then "NORMAL" else listings[k].slot.alarm
  {
    var n := |listings| - 1;
    if k < n {
      AlarmTextIsShown(previous, listings[..n], id, k);
    }
  }
}
