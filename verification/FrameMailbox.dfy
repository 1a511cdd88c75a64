/** The one-slot hand-off of decoded frames from a worker thread to the user
    interface thread: the fields both threads share, and each critical section. */
module FrameMailbox {

  /** A decoded image is known by the number of the enqueue that carried it. */
  datatype Image = NullImage | Decoded(serial: nat)

  datatype Frame = Frame(image: Image, timestampMs: int, wallClockMs: int, generation: nat)

  const NoFrame := Frame(NullImage, -1, -1, 0)

  /** The shown picture and the two clocks beside it. */
  datatype Picture = Picture(image: Image, timestampMs: int, wallClockMs: int)

  const NoPicture := Picture(NullImage, -1, -1)

  function PictureOf(f: Frame): Picture {
    Picture(f.image, f.timestampMs, f.wallClockMs)
  }

  /** The fields guarded by the mutex, and the atomic flag. */
  datatype Item = Item(
    source: string,
    status: string,
    error: string,
    generation: nat,
    shown: Picture,
    pending: Frame,
    deliveryQueued: bool)

  // ---------- critical sections of the worker ----------

  /** Overwrites the slot; the result says whether a delivery must be posted. */
  function Enqueue(item: Item, frame: Frame): (Item, bool) {
    (item.(pending := frame, deliveryQueued := true), !item.deliveryQueued)
  }

  // ---------- critical sections of the user interface thread ----------

  function Take(item: Item): (Item, Frame) {
    (item.(pending := NoFrame), item.pending)
  }

  function Handle(item: Item, frame: Frame): Item {
    item.(shown := PictureOf(frame), status := "Playing", error := "")
  }

  /** Looks again after the flag was cleared; the result says whether to post. */
  function Recheck(item: Item): (Item, bool) {
    if item.pending.image != NullImage
    then (item.(deliveryQueued := true), !item.deliveryQueued)
    else (item, false)
  }

  function ChangeSource(item: Item, source: string): Item {
    item.(source := source, error := "", shown := NoPicture, pending := NoFrame.(generation := item.pending.generation))
  }

  /** The first section of a start: a new generation with an empty screen and slot. */
  function Bump(item: Item): Item {
    item.(generation := item.generation + 1, error := "", shown := NoPicture, pending := NoFrame)
  }

  function Connecting(item: Item): Item {
    item.(status := if item.source == "" then "Waiting" else "Connecting", error := "")
  }

  // ---------- messages a worker posts ----------

  datatype Message =
    | DeliverFrame
    | StatusChanged(generation: nat, text: string)
    | ErrorChanged(generation: nat, text: string)
    | StreamFailed(generation: nat, source: string, text: string)

  function WithStatus(item: Item, status: string): Item {
    item.(status := status, error := if status == "Playing" then "" else item.error)
  }

  /** What a posted report does; the flag says whether it arms the reconnect timer. */
  function Report(item: Item, m: Message): (Item, bool) {
    match m
    case DeliverFrame => (item, false)
    case StatusChanged(generation, text) =>
      if generation != item.generation then (item, false) else (WithStatus(item, text), false)
    case ErrorChanged(generation, text) =>
      if generation != item.generation then (item, false) else (item.(error := text), false)
    case StreamFailed(generation, source, text) =>
      if generation != item.generation || source != item.source then (item, false)
      else (WithStatus(item, "Reconnecting").(error := text), true)
  }

  // ---------- the item itself ----------

  /** One method per critical section, updating the shared fields in place. */
  class RtspVideoItem {
    var source: string
    var status: string
    var error: string
    var streamGeneration: nat
    var frame: Picture
    var pendingFrame: Frame
    var frameDeliveryQueued: bool

    ghost function Shared(): Item
      reads this
    {
      Item(source, status, error, streamGeneration, frame, pendingFrame, frameDeliveryQueued)
    }

    constructor ()
      ensures Shared() == InitialItem
    {
      source, status, error := "", "Idle", "";
      streamGeneration := 0;
      frame, pendingFrame, frameDeliveryQueued := NoPicture, NoFrame, false;
    }

    method QueueDecodedFrame(image: Image, timestampMs: int, wallClockMs: int, generation: nat)
      returns (schedule: bool)
      modifies this
      ensures (Shared(), schedule) == Enqueue(old(Shared()), Frame(image, timestampMs, wallClockMs, generation))
    {
      pendingFrame := Frame(image, timestampMs, wallClockMs, generation);
      schedule := false;
      if !frameDeliveryQueued {
        schedule := true;
      }
      frameDeliveryQueued := true;
    }

    method TakePendingFrame() returns (taken: Frame)
      modifies this
      ensures (Shared(), taken) == Take(old(Shared()))
    {
      taken := pendingFrame;
      pendingFrame := NoFrame;
    }

    method HandleDecodedFrame(image: Image, timestampMs: int, wallClockMs: int)
      modifies this
      ensures forall g :: Shared() == Handle(old(Shared()), Frame(image, timestampMs, wallClockMs, g))
    {
      var next := frame;
      next := next.(image := image);
      if next.timestampMs != timestampMs {
        next := next.(timestampMs := timestampMs);
      }
      if next.wallClockMs != wallClockMs {
        next := next.(wallClockMs := wallClockMs);
      }
      frame := next;
      if status != "Playing" {
        status := "Playing";
      }
      if error != "" {
        error := "";
      }
    }

    method RecheckPendingFrame() returns (scheduleAgain: bool)
      modifies this
      ensures (Shared(), scheduleAgain) == Recheck(old(Shared()))
    {
      scheduleAgain := false;
      if pendingFrame.image != NullImage {
        if !frameDeliveryQueued {
          scheduleAgain := true;
        }
        frameDeliveryQueued := true;
      }
    }

    method BeginStart()
      modifies this
      ensures Shared() == Bump(old(Shared()))
    {
      streamGeneration := streamGeneration + 1;
      frame := NoPicture;
      error := "";
      pendingFrame := NoFrame;
    }

    method SetSource(newSource: string) returns (changed: bool)
      modifies this
      ensures changed <==> old(source) != newSource
      ensures Shared() == if changed then ChangeSource(old(Shared()), newSource) else old(Shared())
    {
      if source == newSource {
        return false;
      }
      source := newSource;
      frame := NoPicture;
      error := "";
      pendingFrame := pendingFrame.(image := NullImage, timestampMs := -1, wallClockMs := -1);
      return true;
    }

    method SetStatus(newStatus: string)
      modifies this
      ensures Shared() == WithStatus(old(Shared()), newStatus)
    {
      if status != newStatus {
        status := newStatus;
      }
      if newStatus == "Playing" && error != "" {
        error := "";
      }
    }

    method HandleReport(m: Message) returns (armReconnect: bool)
      modifies this
      ensures (Shared(), armReconnect) == Report(old(Shared()), m)
    {
      armReconnect := false;
      match m {
        case DeliverFrame =>
        case StatusChanged(generation, text) =>
          if generation == streamGeneration {
            SetStatus(text);
          }
        case ErrorChanged(generation, text) =>
          if generation == streamGeneration {
            error := text;
          }
        case StreamFailed(generation, failedSource, text) =>
          if generation == streamGeneration && failedSource == source {
            SetStatus("Reconnecting");
            error := text;
            armReconnect := true;
          }
      }
    }
  }

  const InitialItem := Item("", "Idle", "", 0, NoPicture, NoFrame, false)
}
