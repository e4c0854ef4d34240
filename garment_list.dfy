/** The garment list (`GarmentList`): the user's garments, newest first, and
    deletion behind a confirmation dialog keyed by a pending garment id. */
module GarmentList {
  import opened Common
  import opened Query
  import opened Store

  /** Deleting an id no row carries leaves the table as it was. */
  lemma {:induction false} DeleteAbsentId(rows: seq<Garment>, id: nat)
    requires forall i :: 0 <= i < |rows| ==> rows[i].id != id
    ensures DeleteById(rows, id) == rows
  {
    if rows != [] {
      DeleteAbsentId(rows[1..], id);
      assert rows == [rows[0]] + rows[1..];
    }
  }

  /** A second delete of the same id removes nothing more. */
  lemma DeleteIdempotent(rows: seq<Garment>, id: nat)
    ensures DeleteById(DeleteById(rows, id), id) == DeleteById(rows, id)
  {
    var once := DeleteById(rows, id);
    forall i | 0 <= i < |once| ensures once[i].id != id {
      assert once[i] in once;
    }
    DeleteAbsentId(once, id);
  }

  /** A delete changes the table exactly when some row carries the id. */
  lemma {:induction false} DeleteChangesIffPresent(rows: seq<Garment>, id: nat)
    ensures DeleteById(rows, id) == rows <==> forall i :: 0 <= i < |rows| ==> rows[i].id != id
  {
    if forall i :: 0 <= i < |rows| ==> rows[i].id != id {
      DeleteAbsentId(rows, id);
    } else {
      var i :| 0 <= i < |rows| && rows[i].id == id;
      assert rows[i] !in DeleteById(rows, id);
    }
  }

  class GarmentListView {
    /** The `userId` prop. */
    const userId: string
    var garments: seq<Garment>
    /** The garment awaiting confirmation of its removal. */
    var deleteGarmentId: Option<nat>
    var toasts: seq<Toast>
    /** How many times the optional `onGarmentChange` callback has been invoked. */
    var changeCalls: nat
    /** Whether the realtime channel on the user's garments is still open. */
    var subscribed: bool

    constructor (uid: string)
      ensures userId == uid && garments == [] && deleteGarmentId == None && toasts == [] && changeCalls == 0
      ensures subscribed
    {
      userId := uid;
      garments, deleteGarmentId, toasts, changeCalls := [], None, [], 0;
      subscribed := true;
    }

    /** The trash button of a garment card. */
    method AskDelete(id: nat)
      modifies this
      ensures deleteGarmentId == Some(id)
      ensures garments == old(garments) && toasts == old(toasts) && changeCalls == old(changeCalls)
      ensures subscribed == old(subscribed)
    {
      deleteGarmentId := Some(id);
    }

    /** The confirmation dialog's `onOpenChange`: closing it (Cancel, Escape,
        clicking outside) clears the pending id; nothing is deleted. */
    method ConfirmOpenChange(open: bool)
      modifies this
      ensures deleteGarmentId == if open then old(deleteGarmentId) else None
      ensures garments == old(garments) && toasts == old(toasts) && changeCalls == old(changeCalls)
      ensures subscribed == old(subscribed)
    {
      if !open {
        deleteGarmentId := None;
      }
    }

    /** `handleDeleteGarment`, with the delete's outcome as `ok`. */
    method HandleDeleteGarment(db: Backend, ok: bool)
      requires db.Valid()
      modifies this, db
      ensures db.Valid()
      ensures old(deleteGarmentId).None? ==>
        db.garments == old(db.garments) && deleteGarmentId == None &&
        toasts == old(toasts) && changeCalls == old(changeCalls)
      ensures old(deleteGarmentId).Some? ==>
        db.garments == if ok then DeleteById(old(db.garments), old(deleteGarmentId).value) else old(db.garments)
      ensures old(deleteGarmentId).Some? && !ok ==>
        deleteGarmentId == old(deleteGarmentId) && changeCalls == old(changeCalls) &&
        toasts == old(toasts) + [Error("Failed to remove garment")]
      ensures old(deleteGarmentId).Some? && ok ==>
        deleteGarmentId == None && changeCalls == old(changeCalls) + 1 &&
        toasts == old(toasts) + [Info("Garment removed successfully")]
      ensures garments == old(garments) && subscribed == old(subscribed)
      ensures db.goals == old(db.goals) && db.eco == old(db.eco) && db.metrics == old(db.metrics)
      ensures db.nextId == old(db.nextId)
    {
      if deleteGarmentId.None? {
        return;
      }
      var error := db.DeleteGarment(deleteGarmentId.value, ok);
      if error {
        toasts := toasts + [Error("Failed to remove garment")];
      } else {
        toasts := toasts + [Info("Garment removed successfully")];
        deleteGarmentId := None;
        changeCalls := changeCalls + 1;
      }
    }

    /** A click on "Remove": Radix's `AlertDialogAction` runs `onClick`
        (`handleDeleteGarment`) first and then closes the dialog through
        `onOpenChange(false)`, so the delete of the pending id is always sent
        and the dialog ends closed with no pending id, whatever the outcome. */
    method ClickRemove(db: Backend, ok: bool)
      requires db.Valid()
      modifies this, db
      ensures db.Valid() && deleteGarmentId == None
      ensures db.garments == if old(deleteGarmentId).Some? && ok
        then DeleteById(old(db.garments), old(deleteGarmentId).value) else old(db.garments)
      ensures toasts == old(toasts) + (if old(deleteGarmentId).None? then []
        else if ok then [Info("Garment removed successfully")] else [Error("Failed to remove garment")])
      ensures changeCalls == old(changeCalls) + (if old(deleteGarmentId).Some? && ok then 1 else 0)
      ensures garments == old(garments) && subscribed == old(subscribed)
      ensures db.goals == old(db.goals) && db.eco == old(db.eco) && db.metrics == old(db.metrics)
      ensures db.nextId == old(db.nextId)
    {
      HandleDeleteGarment(db, ok);
      ConfirmOpenChange(false);
    }

    /** `fetchGarments`: the query's data is the user's rows newest first,
        a null data object shows an empty list, an error keeps the list. */
    method FetchGarments(db: Backend, reply: ListReply)
      modifies this
      ensures reply == Rows ==> garments == GarmentsOf(db.garments, userId) && toasts == old(toasts)
      ensures reply == NullData ==> garments == [] && toasts == old(toasts)
      ensures reply == Failed ==> garments == old(garments) && toasts == old(toasts) + [Error("Failed to load garments")]
      ensures deleteGarmentId == old(deleteGarmentId) && changeCalls == old(changeCalls) && subscribed == old(subscribed)
    {
      match reply
      case Failed =>
        toasts := toasts + [Error("Failed to load garments")];
      case NullData =>
        garments := [];
      case Rows =>
        garments := GarmentsOf(db.garments, userId);
    }

    /** A realtime insert, update or delete on the user's garments refetches;
        none arrives once the channel is removed. */
    method ChangeEvent(db: Backend, reply: ListReply)
      modifies this
      ensures !old(subscribed) ==> garments == old(garments) && toasts == old(toasts)
      ensures old(subscribed) && reply == Rows ==> garments == GarmentsOf(db.garments, userId) && toasts == old(toasts)
      ensures old(subscribed) && reply == NullData ==> garments == [] && toasts == old(toasts)
      ensures old(subscribed) && reply == Failed ==>
        garments == old(garments) && toasts == old(toasts) + [Error("Failed to load garments")]
      ensures deleteGarmentId == old(deleteGarmentId) && changeCalls == old(changeCalls) && subscribed == old(subscribed)
    {
      if subscribed {
        FetchGarments(db, reply);
      }
    }

    /** The effect's cleanup removes the channel. */
    method Teardown()
      modifies this
      ensures !subscribed && garments == old(garments) && deleteGarmentId == old(deleteGarmentId)
      ensures toasts == old(toasts) && changeCalls == old(changeCalls)
    {
      subscribed := false;
    }
  }

  /** After a successful fetch the list shows exactly the user's rows, newest
      first; a garment removed by a successful delete is gone from the next one. */
  lemma FetchAfterDelete(rows: seq<Garment>, uid: string, id: nat)
    ensures forall g :: g in GarmentsOf(DeleteById(rows, id), uid) ==> g.id != id && g in rows && g.fields.userId == uid
    ensures SortedDesc(GarmentsOf(DeleteById(rows, id), uid), GarmentKey)
  {
    GarmentsOfSpec(DeleteById(rows, id), uid);
  }
}
