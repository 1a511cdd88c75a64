/** Merging a server snapshot of the parking slots into the view, slot by slot. */
module SnapshotMerge {
  import opened Text
  import opened SlotIds
  import opened CaptureGroups

  datatype SlotState = Vacant | Occupied | NonEvAlert | OvertimeAlert | SensorFailure | Acked

  datatype Occupancy = UnknownOccupancy | IsVacant | IsOccupied

  datatype VehicleClass = UnknownVehicle | Electric | General

  datatype AlarmKind = NoAlarm | NonEvViolation | Overstay | SensorError

  datatype Visual = Visual(occupancy: Occupancy, vehicle: VehicleClass, alarm: AlarmKind, acknowledged: bool)

  datatype EvSlot = EvSlot(slotId: string, plateNumber: string, isEv: bool, state: SlotState, alarmText: string, visual: Visual)

  datatype ParkingSlot = ParkingSlot(slotId: string, state: SlotState, visual: Visual)

  /** One slot of a server response; image addresses are already complete. */
  datatype SlotSnapshot = SlotSnapshot(
    slotId: string,
    state: string,
    sessionId: int,
    plateNumber: string,
    isEv: bool,
    vehicleTypeKnown: bool,
    alarm: string,
    images: seq<Image>)

  datatype View = View(
    evSlots: map<string, EvSlot>,
    parkingSlots: map<string, ParkingSlot>,
    slotImages: map<string, seq<Image>>,
    slotPlateNumbers: map<string, string>,
    slotSessionIds: map<string, int>,
    serverSlotCount: nat,
    hasServerSnapshot: bool)

  // ---------- texts ----------

  function StateFromText(text: string): SlotState {
    var t := Upper(Trim(text));
    if t == "OCCUPIED" then Occupied
    else if t == "HALL_SENSOR_ERROR" || t == "SENSOR_ERROR" || t == "ERROR" then SensorFailure
    else if t == "NON_EV" || t == "NON_EV_ALERT" then NonEvAlert
    else if t == "OVERTIME" || t == "OVERTIME_ALERT" then OvertimeAlert
    else if t == "ACKED" then Acked
    else Vacant
  }

  function AlarmOfState(state: SlotState): AlarmKind {
    match state
    case NonEvAlert => NonEvViolation
    case OvertimeAlert => Overstay
    case SensorFailure => SensorError
    case _ => NoAlarm
  }

  /** What an alarm text says; fire markers say nothing about a slot. */
  datatype AlarmWord = Names(alarm: AlarmKind) | FireMarker | OtherText

  function ReadAlarm(text: string): AlarmWord {
    var t := Upper(Trim(text));
    if t == "EV_ZONE_VIOLATION" || t == "NON_EV" || t == "NON_EV_ALERT" then Names(NonEvViolation)
    else if t == "OVERSTAY" || t == "OVERTIME" || t == "OVERTIME_ALERT" then Names(Overstay)
    else if t == "HALL_SENSOR_ERROR" || t == "SENSOR_ERROR" || t == "ERROR" then Names(SensorError)
    else if t == "FIRE" || t == "FIRE_SUSPECTED" then FireMarker
    else OtherText
  }

  function AlarmOf(word: AlarmWord, fallback: SlotState): AlarmKind {
    match word
    case Names(alarm) => alarm
    case FireMarker => NoAlarm
    case OtherText => AlarmOfState(fallback)
  }

  function AlarmText(alarm: AlarmKind): string {
    match alarm
    case NonEvViolation => "NON_EV_ALERT"
    case Overstay => "OVERTIME_ALERT"
    case SensorError => "HALL_SENSOR_ERROR"
    case NoAlarm => "NORMAL"
  }

  function StateFromVisual(v: Visual): SlotState {
    match v.alarm
    case NonEvViolation => NonEvAlert
    case Overstay => OvertimeAlert
    case SensorError => SensorFailure
    case NoAlarm => if v.occupancy == IsOccupied then Occupied else Vacant
  }

  function DeriveVisual(state: SlotState, vehicleTypeKnown: bool, isEv: bool, alarm: AlarmWord): Visual {
    Visual(
      if state == Vacant then IsVacant else if state == SensorFailure then UnknownOccupancy else IsOccupied,
      if state == Vacant || state == SensorFailure || !vehicleTypeKnown then UnknownVehicle
      else if isEv then Electric else General,
      AlarmOf(alarm, state),
      state == Acked)
  }

  // ---------- one slot ----------

  /** The zone a listed slot stands for; a slot without one is rejected. */
  function AcceptedId(mapper: Mapper, slotId: string): (id: Option<string>)
    ensures id.Some? ==> IsZone(id.value)
  {
    var mapped := mapper.ToZone(slotId);
    var id := NormalizeSlotId(mapped);
    if mapped != "" && IsZone(id) then Some(id) else None
  }

  predicate IsZone(id: string) {
    IsEvSlotId(id) || IsGeneralSlotId(id)
  }

  /** A slot of the response with its zone and the meaning of its texts. */
  datatype Listing = Listing(zone: Option<string>, state: SlotState, alarm: AlarmWord, slot: SlotSnapshot)

  function Read(mapper: Mapper, slot: SlotSnapshot): (listing: Listing)
    ensures listing.zone.Some? ==> IsZone(listing.zone.value)
  {
    Listing(AcceptedId(mapper, slot.slotId), StateFromText(slot.state), ReadAlarm(slot.alarm), slot)
  }

  function Listed(mapper: Mapper, slots: seq<SlotSnapshot>): (listings: seq<Listing>)
    ensures |listings| == |slots| && Zoned(listings)
  {
    seq(|slots|, i requires 0 <= i < |slots| => Read(mapper, slots[i]))
  }

  predicate Zoned(listings: seq<Listing>) {
    forall i :: 0 <= i < |listings| && listings[i].zone.Some? ==> IsZone(listings[i].zone.value)
  }

  function VisualOf(view: View, id: string): Option<Visual> {
    if id in view.evSlots then Some(view.evSlots[id].visual)
    else if id in view.parkingSlots then Some(view.parkingSlots[id].visual)
    else None
  }

  /** A sensor error stays, and so does any alarm of a slot that is still occupied. */
  predicate AlarmPersists(previous: Option<Visual>, now: Visual) {
    previous.Some? && (previous.value.alarm == SensorError
                       || (now.occupancy == IsOccupied && previous.value.alarm != NoAlarm))
  }

  function AlarmedState(state: SlotState, alarm: AlarmKind): SlotState {
    match alarm
    case NonEvViolation => NonEvAlert
    case Overstay => OvertimeAlert
    case SensorError => SensorFailure
    case NoAlarm => state
  }

  /** State and appearance of a listed slot, given how it looked before. */
  function Shown(listing: Listing, previous: Option<Visual>): (SlotState, Visual) {
    var state := AlarmedState(listing.state, AlarmOf(listing.alarm, listing.state));
    var derived := DeriveVisual(state, listing.slot.vehicleTypeKnown, listing.slot.isEv, listing.alarm);
    var persists := AlarmPersists(previous, derived);
    var kept := if persists then derived.(alarm := previous.value.alarm, acknowledged := previous.value.acknowledged)
                else derived;
    (if persists then StateFromVisual(kept) else state,
     if listing.state == Acked then kept.(acknowledged := true) else kept)
  }

  function EvInfo(id: string, slot: SlotSnapshot, shown: (SlotState, Visual)): EvSlot {
    EvSlot(id, if slot.plateNumber == "" then "-" else slot.plateNumber, slot.isEv, shown.0,
           if shown.1.alarm != NoAlarm then AlarmText(shown.1.alarm)
           else if slot.alarm == "" then "NORMAL" else slot.alarm,
           shown.1)
  }

  /** The images of a slot; a response without images keeps those of the same session. */
  function ImagesFor(previous: View, id: string, slot: SlotSnapshot): seq<Image> {
    if slot.images == [] && slot.sessionId > 0 && id in previous.slotSessionIds
       && previous.slotSessionIds[id] == slot.sessionId && id in previous.slotImages
    then previous.slotImages[id] else slot.images
  }

  /** The appearance of a slot, set up step by step. */
  method DeriveSlotVisualState(state: SlotState, vehicleTypeKnown: bool, isEv: bool, alarm: AlarmWord)
    returns (visual: Visual)
    ensures visual == DeriveVisual(state, vehicleTypeKnown, isEv, alarm)
  {
    visual := Visual(UnknownOccupancy, UnknownVehicle, NoAlarm, false);
    visual := visual.(alarm := AlarmOf(alarm, state));
    visual := visual.(acknowledged := state == Acked);
    if state == Vacant {
      visual := visual.(occupancy := IsVacant);
      return;
    }
    if state == SensorFailure {
      return;
    }
    visual := visual.(occupancy := IsOccupied);
    if vehicleTypeKnown {
      visual := visual.(vehicle := if isEv then Electric else General);
    }
  }

  /** State and appearance of a listed slot, as the merge works them out. */
  method ShowSlot(listing: Listing, previous: Option<Visual>) returns (state: SlotState, visual: Visual)
    ensures (state, visual) == Shown(listing, previous)
  {
    state := listing.state;
    var alarmKind := AlarmOf(listing.alarm, state);
    if alarmKind == NonEvViolation {
      state := NonEvAlert;
    } else if alarmKind == Overstay {
      state := OvertimeAlert;
    } else if alarmKind == SensorError {
      state := SensorFailure;
    }
    visual := DeriveSlotVisualState(state, listing.slot.vehicleTypeKnown, listing.slot.isEv, listing.alarm);
    if previous.Some? {
      var persistent := previous.value.alarm == SensorError
                        || (visual.occupancy == IsOccupied && previous.value.alarm != NoAlarm);
      if persistent {
        visual := visual.(alarm := previous.value.alarm);
        visual := visual.(acknowledged := previous.value.acknowledged);
        state := StateFromVisual(visual);
      }
    }
    if listing.state == Acked {
      visual := visual.(acknowledged := true);
    }
  }

  // ---------- the whole snapshot ----------

  datatype Counts = Counts(applied: nat, rejected: nat, duplicates: nat)

  datatype Progress = Progress(view: View, counts: Counts)

  function Apply(previous: View, before: View, id: string, listing: Listing): View {
    var slot := listing.slot;
    var shown := Shown(listing, VisualOf(previous, id));
    var images := ImagesFor(previous, id, slot);
    before.(
      evSlots := if IsEvSlotId(id) then before.evSlots[id := EvInfo(id, slot, shown)] else before.evSlots,
      parkingSlots := if IsEvSlotId(id) then before.parkingSlots
                      else before.parkingSlots[id := ParkingSlot(id, shown.0, shown.1)],
      slotPlateNumbers := before.slotPlateNumbers[id := slot.plateNumber],
      slotSessionIds := before.slotSessionIds[id := slot.sessionId],
      slotImages := if images == [] then before.slotImages else before.slotImages[id := images])
  }

  function MergeSlot(previous: View, before: Progress, listing: Listing): Progress {
    var c := before.counts;
    match listing.zone
    case None => before.(counts := c.(rejected := c.rejected + 1))
    case Some(id) =>
      var known := id in before.view.evSlots || id in before.view.parkingSlots;
      Progress(Apply(previous, before.view, id, listing),
               c.(applied := c.applied + 1, duplicates := c.duplicates + if known then 1 else 0))
  }

  function Emptied(view: View): View {
    view.(evSlots := map[], parkingSlots := map[], slotImages := map[], slotPlateNumbers := map[], slotSessionIds := map[])
  }

  function MergeSlots(previous: View, listings: seq<Listing>): Progress {
    if listings == [] then Progress(Emptied(previous), Counts(0, 0, 0))
    else MergeSlot(previous, MergeSlots(previous, listings[..|listings| - 1]), listings[|listings| - 1])
  }

  lemma OneMoreMerged(previous: View, listings: seq<Listing>, i: nat)
    requires i < |listings|
    ensures MergeSlots(previous, listings[..i + 1])
         == MergeSlot(previous, MergeSlots(previous, listings[..i]), listings[i])
  {
    assert listings[..i + 1][..i] == listings[..i];
  }

  function Merged(previous: View, listings: seq<Listing>): View {
    var view := MergeSlots(previous, listings).view;
    view.(serverSlotCount := |view.evSlots| + |view.parkingSlots|, hasServerSnapshot := true)
  }

  /** The part of the controller that keeps the view. */
  class ParkingController {
    const mapper: Mapper
    var evSlots: map<string, EvSlot>
    var parkingSlots: map<string, ParkingSlot>
    var slotImages: map<string, seq<Image>>
    var slotPlateNumbers: map<string, string>
    var slotSessionIds: map<string, int>
    var serverSlotCount: nat
    var hasServerSnapshot: bool

    function State(): View
      reads this
    {
      View(evSlots, parkingSlots, slotImages, slotPlateNumbers, slotSessionIds, serverSlotCount, hasServerSnapshot)
    }

    constructor (mapper: Mapper)
      ensures State() == View(map[], map[], map[], map[], map[], 0, false) && this.mapper == mapper
    {
      this.mapper := mapper;
      evSlots, parkingSlots, slotImages, slotPlateNumbers, slotSessionIds := map[], map[], map[], map[], map[];
      serverSlotCount, hasServerSnapshot := 0, false;
    }

    method ResetSlotsForSnapshot()
      modifies this
      ensures State() == Emptied(old(State()))
    {
      evSlots, parkingSlots, slotImages, slotPlateNumbers, slotSessionIds := map[], map[], map[], map[], map[];
    }

    method ApplyParkingSnapshot(slots: seq<SlotSnapshot>) returns (applied: nat, rejected: nat, duplicates: nat)
      modifies this
      ensures State() == Merged(old(State()), Listed(mapper, slots))
      ensures Counts(applied, rejected, duplicates) == MergeSlots(old(State()), Listed(mapper, slots)).counts
    {
      var previous := State();
      ResetSlotsForSnapshot();
      applied, rejected, duplicates := ApplyListings(previous, Listed(mapper, slots));
      serverSlotCount := |evSlots| + |parkingSlots|;
      hasServerSnapshot := true;
    }

    /** The loop over the listed slots. */
    method ApplyListings(previous: View, listings: seq<Listing>) returns (applied: nat, rejected: nat, duplicates: nat)
      requires State() == Emptied(previous)
      modifies this
      ensures Progress(State(), Counts(applied, rejected, duplicates)) == MergeSlots(previous, listings)
    {
      applied, rejected, duplicates := 0, 0, 0;
      for i := 0 to |listings|
        invariant Progress(State(), Counts(applied, rejected, duplicates)) == MergeSlots(previous, listings[..i])
      {
        OneMoreMerged(previous, listings, i);
        applied, rejected, duplicates := ApplySlot(previous, listings[i], applied, rejected, duplicates);
      }
      assert listings[..|listings|] == listings;
    }

    /** The body of that loop. */
    method ApplySlot(previous: View, listing: Listing, applied: nat, rejected: nat, duplicates: nat)
      returns (nextApplied: nat, nextRejected: nat, nextDuplicates: nat)
      modifies this
      ensures Progress(State(), Counts(nextApplied, nextRejected, nextDuplicates))
           == MergeSlot(previous, Progress(old(State()), Counts(applied, rejected, duplicates)), listing)
    {
      nextApplied, nextRejected, nextDuplicates := applied, rejected, duplicates;
      if listing.zone.None? {
        nextRejected := rejected + 1;
        return;
      }
      var id := listing.zone.value;
      if id in evSlots || id in parkingSlots {
        nextDuplicates := duplicates + 1;
      }
      StoreSlot(previous, id, listing);
      nextApplied := applied + 1;
    }

    /** An accepted slot, stored. */
    method StoreSlot(previous: View, id: string, listing: Listing)
      modifies this
      ensures State() == Apply(previous, old(State()), id, listing)
    {
      var slot := listing.slot;
      var state, visual := ShowSlot(listing, VisualOf(previous, id));
      if IsEvSlotId(id) {
        evSlots := evSlots[id := EvInfo(id, slot, (state, visual))];
      } else {
        parkingSlots := parkingSlots[id := ParkingSlot(id, state, visual)];
      }
      slotPlateNumbers := slotPlateNumbers[id := slot.plateNumber];
      slotSessionIds := slotSessionIds[id := slot.sessionId];
      var images := ImagesFor(previous, id, slot);
      if images != [] {
        slotImages := slotImages[id := images];
      }
    }
  }

  // ---------- counting ----------

  /** The zones a snapshot lists. */
  function Zones(listings: seq<Listing>): set<string> {
    if listings == [] then {}
    else
      Zones(listings[..|listings| - 1])
      + match listings[|listings| - 1].zone case None => {} case Some(id) => {id}
  }

  predicate KindsApart(view: View) {
    (forall id <- view.evSlots :: IsEvSlotId(id)) && (forall id <- view.parkingSlots :: IsGeneralSlotId(id))
  }

  lemma KindsAreDisjoint(view: View)
    requires KindsApart(view)
    ensures view.evSlots.Keys !! view.parkingSlots.Keys
  {
    forall id <- view.evSlots
      ensures id !in view.parkingSlots
    {
      KindsDiffer(id);
    }
  }

  ghost predicate Tallied(p: Progress, listings: seq<Listing>) {
    && p.counts.applied + p.counts.rejected == |listings|
    && p.counts.duplicates <= p.counts.applied
    && |Zones(listings)| == p.counts.applied - p.counts.duplicates
    && KindsApart(p.view)
    && Zones(listings) == p.view.evSlots.Keys + p.view.parkingSlots.Keys
  }

  lemma {:induction false} MergeTallies(previous: View, listings: seq<Listing>)
    requires Zoned(listings)
    ensures Tallied(MergeSlots(previous, listings), listings)
  {
    if listings != [] {
      var rest, last := listings[..|listings| - 1], listings[|listings| - 1];
      MergeTallies(previous, rest);
      assert listings == rest + [last];
      OneMoreTallies(previous, MergeSlots(previous, rest), rest, last);
    }
  }

  lemma OneMoreZone(listings: seq<Listing>, last: Listing)
    ensures Zones(listings + [last]) == Zones(listings) + match last.zone case None => {} case Some(id) => {id}
  {
    var all := listings + [last];
    assert all[..|all| - 1] == listings && all[|all| - 1] == last;
  }

  lemma ApplyAddsId(previous: View, before: View, id: string, listing: Listing)
    requires KindsApart(before) && IsZone(id)
    ensures
      var after := Apply(previous, before, id, listing);
      && KindsApart(after)
      && after.evSlots.Keys + after.parkingSlots.Keys == before.evSlots.Keys + before.parkingSlots.Keys + {id}
  {
  }

  lemma OneMoreCounts(before: Progress, zones: set<string>, id: string)
    requires zones == before.view.evSlots.Keys + before.view.parkingSlots.Keys
    ensures |zones + {id}| == |zones| + if id in before.view.evSlots || id in before.view.parkingSlots then 0 else 1
  {
    if id in zones {
      assert zones + {id} == zones;
    }
  }

  lemma OneMoreTallies(previous: View, before: Progress, listings: seq<Listing>, last: Listing)
    requires Tallied(before, listings) && (last.zone.Some? ==> IsZone(last.zone.value))
    ensures Tallied(MergeSlot(previous, before, last), listings + [last])
  {
    OneMoreZone(listings, last);
    if last.zone.Some? {
      OneMoreCounts(before, Zones(listings), last.zone.value);
      ApplyAddsId(previous, before.view, last.zone.value, last);
    }
  }

  /** Nothing in a response is uncounted: received = applied + rejected, and the announced capacity is
      applied minus duplicates, which is the number of different zones listed. */
  lemma CountsAgree(previous: View, mapper: Mapper, slots: seq<SlotSnapshot>)
    ensures
      var listings := Listed(mapper, slots);
      var view := Merged(previous, listings);
      var counts := MergeSlots(previous, listings).counts;
      && |slots| == counts.applied + counts.rejected
      && view.serverSlotCount == counts.applied - counts.duplicates == |Zones(listings)|
      && view.evSlots.Keys !! view.parkingSlots.Keys
      && view.evSlots.Keys + view.parkingSlots.Keys == Zones(listings)
  {
    var listings := Listed(mapper, slots);
    MergeTallies(previous, listings);
    var view := MergeSlots(previous, listings).view;
    KindsAreDisjoint(view);
    assert |view.evSlots.Keys + view.parkingSlots.Keys| == |view.evSlots.Keys| + |view.parkingSlots.Keys|;
  }

  // ---------- the last listing of a zone decides ----------

  predicate LastListing(listings: seq<Listing>, id: string, k: nat) {
    k < |listings| && listings[k].zone == Some(id) && forall i :: k < i < |listings| ==> listings[i].zone != Some(id)
  }

  lemma MergeSlotShows(previous: View, before: Progress, last: Listing, id: string)
    requires KindsApart(before.view) && (last.zone.Some? ==> IsZone(last.zone.value))
    ensures VisualOf(MergeSlot(previous, before, last).view, id)
         == if last.zone == Some(id) then Some(Shown(last, VisualOf(previous, id)).1)
            else VisualOf(before.view, id)
  {
  }

  lemma MergeShows(previous: View, listings: seq<Listing>, id: string)
    requires Zoned(listings) && listings != []
    ensures
      var n := |listings| - 1;
      VisualOf(MergeSlots(previous, listings).view, id)
        == if listings[n].zone == Some(id) then Some(Shown(listings[n], VisualOf(previous, id)).1)
           else VisualOf(MergeSlots(previous, listings[..n]).view, id)
  {
    var n := |listings| - 1;
    MergeTallies(previous, listings[..n]);
    MergeSlotShows(previous, MergeSlots(previous, listings[..n]), listings[n], id);
  }

  lemma {:induction false} LastListingWins(previous: View, listings: seq<Listing>, id: string, k: nat)
    requires Zoned(listings) && LastListing(listings, id, k)
    ensures VisualOf(MergeSlots(previous, listings).view, id) == Some(Shown(listings[k], VisualOf(previous, id)).1)
  {
    var n := |listings| - 1;
    MergeShows(previous, listings, id);
    if k < n {
      LastListingWins(previous, listings[..n], id, k);
    }
  }

  lemma {:induction false} ListedHasLast(listings: seq<Listing>, id: string) returns (k: nat)
    requires id in Zones(listings)
    ensures LastListing(listings, id, k)
  {
    var n := |listings| - 1;
    if listings[n].zone == Some(id) {
      k := n;
    } else {
      k := ListedHasLast(listings[..n], id);
    }
  }

  // ---------- alarms over runs of snapshots ----------

  function AfterSnapshots(view: View, snapshots: seq<seq<Listing>>): View {
    if snapshots == [] then view
    else Merged(AfterSnapshots(view, snapshots[..|snapshots| - 1]), snapshots[|snapshots| - 1])
  }

  lemma AlarmKept(listing: Listing, previous: Visual)
    ensures
      var now := Shown(listing, Some(previous)).1;
      previous.alarm == SensorError || (now.occupancy == IsOccupied && previous.alarm != NoAlarm)
      ==> now.alarm == previous.alarm && (previous.acknowledged ==> now.acknowledged)
  {
  }

  /** A shown alarm and the shown state always agree. */
  lemma AlarmAndStateAgree(listing: Listing, previous: Option<Visual>)
    ensures
      var (state, visual) := Shown(listing, previous);
      visual.alarm != NoAlarm ==> state == StateFromVisual(visual)
  {
  }

  /** Any alarm lasts at least until a snapshot no longer shows the slot as occupied; a sensor error lasts on. */
  lemma AlarmLasts(view: View, listings: seq<Listing>, id: string)
    requires Zoned(listings) && id in Zones(listings) && VisualOf(view, id).Some?
    ensures
      var before := VisualOf(view, id).value;
      var now := VisualOf(Merged(view, listings), id);
      && now.Some?
      && (before.alarm == SensorError || (now.value.occupancy == IsOccupied && before.alarm != NoAlarm)
          ==> now.value.alarm == before.alarm && (before.acknowledged ==> now.value.acknowledged))
  {
    var k := ListedHasLast(listings, id);
    LastListingWins(view, listings, id, k);
    AlarmKept(listings[k], VisualOf(view, id).value);
  }

  /** Over any run of snapshots that keep listing a slot, a sensor error is never dropped and
      its acknowledgement never taken back, whatever the snapshots say. */
  lemma {:induction false} SensorErrorIsNeverDropped(view: View, snapshots: seq<seq<Listing>>, id: string)
    requires VisualOf(view, id).Some? && VisualOf(view, id).value.alarm == SensorError
    requires forall i :: 0 <= i < |snapshots| ==> Zoned(snapshots[i]) && id in Zones(snapshots[i])
    ensures
      var now := VisualOf(AfterSnapshots(view, snapshots), id);
      now.Some? && now.value.alarm == SensorError
      && (VisualOf(view, id).value.acknowledged ==> now.value.acknowledged)
  {
    if snapshots != [] {
      var n := |snapshots| - 1;
      SensorErrorIsNeverDropped(view, snapshots[..n], id);
      AlarmLasts(AfterSnapshots(view, snapshots[..n]), snapshots[n], id);
    }
  }

  // ---------- images over runs of snapshots ----------

  /** No listing of the zone brings images, and all are for this session. */
  predicate WithoutImages(listings: seq<Listing>, id: string, sessionId: int) {
    forall i :: 0 <= i < |listings| && listings[i].zone == Some(id) ==>
      listings[i].slot.images == [] && listings[i].slot.sessionId == sessionId
  }

  predicate HoldsImages(view: View, id: string, sessionId: int, images: seq<Image>) {
    && id in view.slotSessionIds && view.slotSessionIds[id] == sessionId
    && id in view.slotImages && view.slotImages[id] == images
  }

  lemma {:induction false} PrefixKeepsImages(previous: View, listings: seq<Listing>,
                                             id: string, sessionId: int, images: seq<Image>)
    requires sessionId > 0 && images != [] && HoldsImages(previous, id, sessionId, images)
    requires WithoutImages(listings, id, sessionId)
    ensures id in Zones(listings) ==> HoldsImages(MergeSlots(previous, listings).view, id, sessionId, images)
  {
    if listings != [] {
      PrefixKeepsImages(previous, listings[..|listings| - 1], id, sessionId, images);
    }
  }

  /** Responses without images never make the images of a running session disappear. */
  lemma {:induction false} ImagesOutlivePolls(view: View, snapshots: seq<seq<Listing>>,
                                              id: string, sessionId: int, images: seq<Image>)
    requires sessionId > 0 && images != [] && HoldsImages(view, id, sessionId, images)
    requires forall i :: 0 <= i < |snapshots| ==>
               WithoutImages(snapshots[i], id, sessionId) && id in Zones(snapshots[i])
    ensures HoldsImages(AfterSnapshots(view, snapshots), id, sessionId, images)
  {
    if snapshots != [] {
      var n := |snapshots| - 1;
      ImagesOutlivePolls(view, snapshots[..n], id, sessionId, images);
      PrefixKeepsImages(AfterSnapshots(view, snapshots[..n]), snapshots[n], id, sessionId, images);
    }
  }
}
