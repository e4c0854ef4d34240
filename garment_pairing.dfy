/** The garment pairing wizard (`AddGarmentDialog`): choose a pairing method,
    wait for the simulated pairing delay, enter the garment's details, insert
    one `garments` row. */
module GarmentPairing {
  import opened Common
  import opened Store

  /** The wizard's `step`: "method", "pairing" or "success". */
  datatype Step = ChooseMethod | Pairing | Success

  /** The wizard's local state: `step`, `pairingMethod`, `garmentName`,
      `garmentType` and `isLoading`. */
  datatype Wizard = Wizard(step: Step, pairing: Option<PairingMethod>, name: string, kind: string, loading: bool)

  /** The state the dialog starts in and `resetDialog` returns to. */
  const Initial: Wizard := Wizard(ChooseMethod, None, "", "", false)

  /** `handleMethodSelect`, including the synchronous part of `simulatePairing`. */
  function SelectMethod(w: Wizard, m: PairingMethod): Wizard {
    w.(step := Pairing, pairing := Some(m), loading := true)
  }

  /** The callback of the two-second `setTimeout` in `simulatePairing`. */
  function PairingTimedOut(w: Wizard): Wizard {
    w.(step := Success, loading := false)
  }

  /** `resetDialog`: the outcome does not depend on the state it is applied to. */
  function Reset(w: Wizard): Wizard {
    Initial
  }

  /** The guard of `handleComplete`: neither field may be the empty string. */
  predicate DetailsFilled(w: Wizard) {
    w.name != "" && w.kind != ""
  }

  /** The row `handleComplete` inserts, given `Date.now()`. */
  function NewGarment(userId: string, w: Wizard, now: nat): (g: GarmentInsert)
    ensures g.userId == userId && g.name == w.name && g.kind == w.kind && g.isPaired
    ensures g.bluetoothId.Some? <==> w.pairing == Some(Bluetooth)
    ensures g.qrCode.Some? <==> w.pairing == Some(Qr)
    ensures g.bluetoothId.None? || g.qrCode.None?
    ensures g.bluetoothId.Some? ==> |g.bluetoothId.value| > 3 && g.bluetoothId.value[..3] == "BT-"
    ensures g.qrCode.Some? ==> |g.qrCode.value| > 3 && g.qrCode.value[..3] == "QR-"
    ensures g.bluetoothId.Some? ==> g.bluetoothId.value == "BT-" + Decimal(now)
    ensures g.qrCode.Some? ==> g.qrCode.value == "QR-" + Decimal(now)
  {
    GarmentInsert(
      userId, w.name, w.kind, true,
      if w.pairing == Some(Bluetooth) then Some("BT-" + Decimal(now)) else None,
      if w.pairing == Some(Qr) then Some("QR-" + Decimal(now)) else None)
  }

  /** The digits after a marker's three-character prefix read back as the
      timestamp the row was created with. */
  lemma MarkerTimestamp(userId: string, w: Wizard, now: nat)
    ensures var g := NewGarment(userId, w, now);
      (g.bluetoothId.Some? ==> AllDigits(g.bluetoothId.value[3..]) && DecimalValue(g.bluetoothId.value[3..]) == now) &&
      (g.qrCode.Some? ==> AllDigits(g.qrCode.value[3..]) && DecimalValue(g.qrCode.value[3..]) == now)
  {
    var g := NewGarment(userId, w, now);
    DecimalRoundTrip(now);
    if g.bluetoothId.Some? {
      assert g.bluetoothId.value[3..] == Decimal(now);
    }
    if g.qrCode.Some? {
      assert g.qrCode.value[3..] == Decimal(now);
    }
  }

  /** Selecting a method records it, enters "pairing" and shows the spinner,
      leaving the detail fields alone. */
  lemma SelectMethodSpec(w: Wizard, m: PairingMethod)
    ensures SelectMethod(w, m).step == Pairing && SelectMethod(w, m).pairing == Some(m)
    ensures SelectMethod(w, m).loading
    ensures SelectMethod(w, m).name == w.name && SelectMethod(w, m).kind == w.kind
  {
  }

  /** Reset is idempotent and always yields the initial state. */
  lemma ResetIdempotent(w: Wizard)
    ensures Reset(Reset(w)) == Reset(w) == Initial
    ensures !Reset(w).loading && Reset(w).pairing.None? && !DetailsFilled(Reset(w))
  {
  }

  /** The pairing timeout always lands on "success" with the spinner off,
      whatever state it fires in, so one that fires after a reset shows a
      paired-garment form although no method was chosen; a garment completed
      from there carries neither a Bluetooth id nor a QR code. */
  lemma TimeoutAfterReset(w: Wizard, userId: string, name: string, kind: string, now: nat)
    ensures PairingTimedOut(Reset(w)) == Wizard(Success, None, "", "", false)
    ensures var g := NewGarment(userId, PairingTimedOut(Reset(w)).(name := name, kind := kind), now);
      g.bluetoothId.None? && g.qrCode.None? && g.isPaired
  {
  }

  /** Bluetooth pairing followed by the details "Test Shirt" / "shirt"
      produces one paired row with a Bluetooth id and no QR code. */
  lemma BluetoothScenario(userId: string, now: nat)
    ensures var w := PairingTimedOut(SelectMethod(Initial, Bluetooth)).(name := "Test Shirt", kind := "shirt");
      DetailsFilled(w) &&
      NewGarment(userId, w, now) ==
        GarmentInsert(userId, "Test Shirt", "shirt", true, Some("BT-" + Decimal(now)), None)
  {
  }

  class AddGarmentDialog {
    /** The `open` prop: the parent's `isAddGarmentOpen`, whose setter is the
        `onOpenChange` prop. */
    var open: bool
    var step: Step
    var pairingMethod: Option<PairingMethod>
    var garmentName: string
    var garmentType: string
    var isLoading: bool
    /** Pairing timeouts scheduled and not yet fired; nothing cancels them. */
    var pendingTimeouts: nat
    var toasts: seq<Toast>

    function Snapshot(): Wizard
      reads this
    {
      Wizard(step, pairingMethod, garmentName, garmentType, isLoading)
    }

    constructor (open0: bool)
      ensures Snapshot() == Initial && open == open0 && pendingTimeouts == 0 && toasts == []
    {
      open := open0;
      step, pairingMethod, garmentName, garmentType, isLoading := ChooseMethod, None, "", "", false;
      pendingTimeouts, toasts := 0, [];
    }

    /** A method button: the buttons render only in the "method" step. */
    method HandleMethodSelect(m: PairingMethod)
      requires step == ChooseMethod
      modifies this
      ensures Snapshot() == SelectMethod(old(Snapshot()), m)
      ensures pendingTimeouts == old(pendingTimeouts) + 1
      ensures open == old(open) && toasts == old(toasts)
    {
      pairingMethod := Some(m);
      step := Pairing;
      isLoading := true;
      pendingTimeouts := pendingTimeouts + 1;
    }

    /** One scheduled pairing timeout fires. */
    method PairingTimeout()
      requires pendingTimeouts > 0
      modifies this
      ensures Snapshot() == PairingTimedOut(old(Snapshot()))
      ensures pendingTimeouts == old(pendingTimeouts) - 1
      ensures open == old(open) && toasts == old(toasts)
    {
      isLoading := false;
      step := Success;
      pendingTimeouts := pendingTimeouts - 1;
    }

    method SetGarmentName(value: string)
      modifies this
      ensures Snapshot() == old(Snapshot()).(name := value)
      ensures open == old(open) && pendingTimeouts == old(pendingTimeouts) && toasts == old(toasts)
    {
      garmentName := value;
    }

    method SetGarmentType(value: string)
      modifies this
      ensures Snapshot() == old(Snapshot()).(kind := value)
      ensures open == old(open) && pendingTimeouts == old(pendingTimeouts) && toasts == old(toasts)
    {
      garmentType := value;
    }

    /** `resetDialog`; the pending timeouts survive it. */
    method ResetDialog()
      modifies this
      ensures Snapshot() == Reset(old(Snapshot()))
      ensures open == old(open) && pendingTimeouts == old(pendingTimeouts) && toasts == old(toasts)
    {
      step := ChooseMethod;
      pairingMethod := None;
      garmentName := "";
      garmentType := "";
      isLoading := false;
    }

    /** `handleComplete`, with `Date.now()` as `now` and the insert's outcome as
        `ok`; "Complete Setup" renders only in the "success" step. */
    method HandleComplete(userId: string, db: Backend, now: nat, ok: bool)
      requires step == Success
      requires db.Valid()
      modifies this, db
      ensures db.Valid()
      ensures pendingTimeouts == old(pendingTimeouts)
      ensures db.goals == old(db.goals) && db.eco == old(db.eco) && db.metrics == old(db.metrics)
      ensures !DetailsFilled(old(Snapshot())) ==>
        Snapshot() == old(Snapshot()) && open == old(open) &&
        toasts == old(toasts) + [Error("Please fill in garment details")] &&
        db.garments == old(db.garments) && db.nextId == old(db.nextId)
      ensures DetailsFilled(old(Snapshot())) ==>
        db.garments == if ok
          then old(db.garments) + [Garment(old(db.nextId), old(db.nextId), NewGarment(userId, old(Snapshot()), now))]
          else old(db.garments)
      ensures DetailsFilled(old(Snapshot())) ==> db.nextId == old(db.nextId) + (if ok then 1 else 0)
      ensures DetailsFilled(old(Snapshot())) && !ok ==>
        Snapshot() == old(Snapshot()) && open == old(open) &&
        toasts == old(toasts) + [Error("Failed to add garment")]
      ensures DetailsFilled(old(Snapshot())) && ok ==>
        Snapshot() == Initial && !open && toasts == old(toasts) + [Info("Garment added successfully!")]
    {
      if garmentName == "" || garmentType == "" {
        toasts := toasts + [Error("Please fill in garment details")];
        return;
      }
      var error := db.InsertGarment(NewGarment(userId, Snapshot(), now), ok);
      if error {
        toasts := toasts + [Error("Failed to add garment")];
      } else {
        toasts := toasts + [Info("Garment added successfully!")];
        open := false;
        ResetDialog();
      }
    }

    /** The `onOpenChange` the dialog hands to its `Dialog`: report to the
        parent, and reset when closing. */
    method OnOpenChange(newOpen: bool)
      modifies this
      ensures open == newOpen
      ensures Snapshot() == if newOpen then old(Snapshot()) else Initial
      ensures pendingTimeouts == old(pendingTimeouts) && toasts == old(toasts)
    {
      open := newOpen;
      if !newOpen {
        ResetDialog();
      }
    }

    /** The parent writes its `isAddGarmentOpen` state directly. */
    method ParentSetsOpen(value: bool)
      modifies this
      ensures open == value
      ensures Snapshot() == old(Snapshot()) && pendingTimeouts == old(pendingTimeouts) && toasts == old(toasts)
    {
      open := value;
    }
  }
}
