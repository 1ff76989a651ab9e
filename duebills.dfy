/**
  * web/views.py: the two due-bill handlers that change a request, behind
  * the role check of web/decorators.py. `duebill_items_update` sets every
  * checklist item to installed or pending from the submitted form;
  * `duebill_send_to_parts` stamps the request as sent to the parts
  * department, once.
  */
module DueBills {
  import opened Wrappers
  import opened Text
  import RoleGate

  /** sales/models.py `DueBillRequest.Status`. */
  datatype RequestStatus = Open | InProgress | Fulfilled | Cancelled

  /** sales/models.py `DueBillItem.Status`. */
  datatype ItemStatus = Pending | Ordered | Received | Installed | ItemCancelled

  /** A checklist item of a due bill. */
  datatype Item = Item(id: nat, description: string, partNumber: string, status: ItemStatus)

  /** A message flashed to the user. */
  datatype Message = Success(text: string) | Info(text: string)

  /** What a handler answers. */
  datatype Response =
    | Gate(decision: RoleGate.Decision)   // the role check answered; the view did not run
    | Redirect(message: Option<Message>)  // back to the due-bill page, with the message flashed, if any

  // ------------------------------------------------------------- checklist

  /** The status the form asks for: installed when the item's id is among the ticked ones, pending otherwise. */
  function Target(item: Item, completed: set<string>): ItemStatus {
    if NatToString(item.id) in completed then Installed else Pending
  }

  /** The checklist after the update. */
  function Checked(items: seq<Item>, completed: set<string>): (r: seq<Item>)
    ensures |r| == |items|
    ensures forall k :: 0 <= k < |items| ==> r[k] == items[k].(status := Target(items[k], completed))
  {
    seq(|items|, k requires 0 <= k < |items| => items[k].(status := Target(items[k], completed)))
  }

  /** The ids of the items whose status changes, in checklist order: the ones saved. */
  function ChangedIds(items: seq<Item>, completed: set<string>): seq<nat> {
    if items == [] then []
    else
      var last := items[|items| - 1];
      ChangedIds(items[..|items| - 1], completed) + (if last.status != Target(last, completed) then [last.id] else [])
  }

  /** One more item of the checklist. */
  lemma ChangedIdsSnoc(items: seq<Item>, i: nat, completed: set<string>)
    requires i < |items|
    ensures ChangedIds(items[..i + 1], completed) ==
      ChangedIds(items[..i], completed) + (if items[i].status != Target(items[i], completed) then [items[i].id] else [])
  {
    assert items[..i + 1][..i] == items[..i];
  }

  function ChecklistMessage(updated: nat): Message {
    if updated > 0 then Success("Checklist updated.") else Info("No changes made to items.")
  }

  /**
    * After the update an item is installed exactly when its id was ticked,
    * and pending otherwise, whatever it was before (ordered, received and
    * cancelled included); nothing else about an item changes.
    */
  lemma CheckedTargets(items: seq<Item>, completed: set<string>)
    ensures forall k :: 0 <= k < |items| ==>
      && (Checked(items, completed)[k].status == Installed <==> NatToString(items[k].id) in completed)
      && (Checked(items, completed)[k].status == Pending <==> NatToString(items[k].id) !in completed)
      && Checked(items, completed)[k].id == items[k].id
      && Checked(items, completed)[k].description == items[k].description
      && Checked(items, completed)[k].partNumber == items[k].partNumber
  {
  }

  /** Nothing is saved exactly when every item already has the submitted status. */
  lemma {:induction false} NoChangedIds(items: seq<Item>, completed: set<string>)
    ensures ChangedIds(items, completed) == [] <==> forall k :: 0 <= k < |items| ==> items[k].status == Target(items[k], completed)
  {
    if items != [] {
      var init := items[..|items| - 1];
      NoChangedIds(init, completed);
      assert forall k :: 0 <= k < |init| ==> init[k] == items[k];
    }
  }

  /** Nothing is saved exactly when the checklist is already as submitted. */
  lemma NoChangesExactly(items: seq<Item>, completed: set<string>)
    ensures ChangedIds(items, completed) == [] <==> Checked(items, completed) == items
  {
    NoChangedIds(items, completed);
    if forall k :: 0 <= k < |items| ==> items[k].status == Target(items[k], completed) {
      assert forall k :: 0 <= k < |items| ==> Checked(items, completed)[k] == items[k];
    }
  }

  /** Submitting the same form twice: the second time nothing changes and nothing is saved. */
  lemma ChecklistIdempotent(items: seq<Item>, completed: set<string>)
    ensures Checked(Checked(items, completed), completed) == Checked(items, completed)
    ensures ChangedIds(Checked(items, completed), completed) == []
  {
    NoChangesExactly(Checked(items, completed), completed);
  }

  /** At most one save per item. */
  lemma {:induction false} ChangedIdsBound(items: seq<Item>, completed: set<string>)
    ensures |ChangedIds(items, completed)| <= |items|
  {
    if items != [] {
      ChangedIdsBound(items[..|items| - 1], completed);
    }
  }

  // ---------------------------------------------------------- send to parts

  /** The part of a request `duebill_send_to_parts` touches. */
  datatype Dispatch = Dispatch(status: RequestStatus, sentToPartsAt: Option<int>)

  /** Sending at time `now`: nothing if already sent; otherwise stamped, and an open request is now in progress. */
  function SendRule(d: Dispatch, now: int): Dispatch {
    if d.sentToPartsAt.Some? then d
    else Dispatch(if d.status == Open then InProgress else d.status, Some(now))
  }

  /**
    * A sent request is stamped with the first sending time; an open request
    * moves to in progress and no other status changes; a second sending
    * changes nothing.
    */
  lemma SendRuleShape(d: Dispatch, now: int, later: int)
    ensures SendRule(d, now).sentToPartsAt == (if d.sentToPartsAt.Some? then d.sentToPartsAt else Some(now))
    ensures SendRule(d, now).status == (if d.sentToPartsAt.None? && d.status == Open then InProgress else d.status)
    ensures SendRule(SendRule(d, now), later) == SendRule(d, now)
  {
  }

  // --------------------------------------------------------------- handlers

  /** A due-bill request as loaded by `get_object_or_404`. */
  class DueBillRequest {
    var status: RequestStatus
    var sentToPartsAt: Option<int>
    var items: seq<Item>

    constructor (status: RequestStatus, sentToPartsAt: Option<int>, items: seq<Item>)
      ensures this.status == status && this.sentToPartsAt == sentToPartsAt && this.items == items
    {
      this.status := status;
      this.sentToPartsAt := sentToPartsAt;
      this.items := items;
    }

    function Dispatched(): Dispatch
      reads this
    {
      Dispatch(status, sentToPartsAt)
    }

    /** The loop of `duebill_items_update`: each item whose status differs from the submitted one is set and saved. */
    method TickItems(completed: set<string>) returns (written: seq<nat>, updated: nat)
      modifies this
      ensures status == old(status) && sentToPartsAt == old(sentToPartsAt)
      ensures items == Checked(old(items), completed)
      ensures written == ChangedIds(old(items), completed)
      ensures updated == |written|
    {
      written, updated := [], 0;
      ghost var before := items;
      for i := 0 to |items|
        invariant status == old(status) && sentToPartsAt == old(sentToPartsAt)
        invariant |items| == |before|
        invariant forall k :: 0 <= k < i ==> items[k] == before[k].(status := Target(before[k], completed))
        invariant forall k :: i <= k < |items| ==> items[k] == before[k]
        invariant written == ChangedIds(before[..i], completed)
        invariant updated == |written|
      {
        ChangedIdsSnoc(before, i, completed);
        var item := items[i];
        var shouldComplete := NatToString(item.id) in completed;
        var newStatus := if shouldComplete then Installed else Pending;
        if item.status != newStatus {
          items := items[i := item.(status := newStatus)];
          written := written + [item.id];
          updated := updated + 1;
        }
      }
      assert before[..|before|] == before;
    }

    /**
      * `duebill_items_update`. `written` lists the ids of the items saved,
      * in order, and `updated` is the view's counter.
      */
    method ItemsUpdate(user: RoleGate.User, fullPath: string, isPost: bool, completed: set<string>)
      returns (response: Response, written: seq<nat>, updated: nat)
      modifies this
      ensures status == old(status) && sentToPartsAt == old(sentToPartsAt)
      ensures RoleGate.Check(RoleGate.DueBillRoles, user, fullPath) != RoleGate.CallView ==>
        response == Gate(RoleGate.Check(RoleGate.DueBillRoles, user, fullPath)) && items == old(items) && written == []
      ensures RoleGate.Check(RoleGate.DueBillRoles, user, fullPath) == RoleGate.CallView && !isPost ==>
        response == Redirect(None) && items == old(items) && written == []
      ensures RoleGate.Check(RoleGate.DueBillRoles, user, fullPath) == RoleGate.CallView && isPost ==>
        && items == Checked(old(items), completed)
        && written == ChangedIds(old(items), completed)
        && updated == |written|
        && response == Redirect(Some(ChecklistMessage(updated)))
    {
      written, updated := [], 0;
      var gate := RoleGate.Check(RoleGate.DueBillRoles, user, fullPath);
      if gate != RoleGate.CallView {
        return Gate(gate), written, updated;
      }
      if !isPost {
        return Redirect(None), written, updated;
      }
      written, updated := TickItems(completed);
      if updated > 0 {
        response := Redirect(Some(Success("Checklist updated.")));
      } else {
        response := Redirect(Some(Info("No changes made to items.")));
      }
    }

    /** `duebill_send_to_parts` at time `now`. */
    method SendToParts(user: RoleGate.User, fullPath: string, isPost: bool, now: int) returns (response: Response)
      modifies this
      ensures items == old(items)
      ensures RoleGate.Check(RoleGate.DueBillRoles, user, fullPath) != RoleGate.CallView ==>
        response == Gate(RoleGate.Check(RoleGate.DueBillRoles, user, fullPath)) && Dispatched() == old(Dispatched())
      ensures RoleGate.Check(RoleGate.DueBillRoles, user, fullPath) == RoleGate.CallView && !isPost ==>
        response == Redirect(None) && Dispatched() == old(Dispatched())
      ensures RoleGate.Check(RoleGate.DueBillRoles, user, fullPath) == RoleGate.CallView && isPost ==>
        && Dispatched() == SendRule(old(Dispatched()), now)
        && response == Redirect(Some(
             if old(sentToPartsAt).Some? then Info("This request has already been sent to parts.")
             else Success("Request sent to parts department.")))
    {
      var gate := RoleGate.Check(RoleGate.DueBillRoles, user, fullPath);
      if gate != RoleGate.CallView {
        return Gate(gate);
      }
      if !isPost {
        return Redirect(None);
      }
      if sentToPartsAt.Some? {
        return Redirect(Some(Info("This request has already been sent to parts.")));
      }
      sentToPartsAt := Some(now);
      if status == Open {
        status := InProgress;
      }
      response := Redirect(Some(Success("Request sent to parts department.")));
    }
  }
}
