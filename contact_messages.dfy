/** The admin's inbox, src/components/admin/AdminContactMessages.tsx: the
    loaded messages, the one shown in the dialog, and the handlers that view,
    mark as read and delete a message after their API call. */
module ContactMessages {
  import opened Wrappers
  import opened Lists

  /** The client's `ContactMessage` type. */
  datatype ContactMessage = ContactMessage(
    id: nat, name: string, email: string, phone: Option<string>,
    subject: string, message: string, isRead: bool, createdAt: string)

  /** `messages.map(msg => msg.id === id ? { ...msg, is_read: true } : msg)` */
  function MarkReadById(ms: seq<ContactMessage>, id: nat): (r: seq<ContactMessage>)
    ensures |r| == |ms|
    ensures forall i :: 0 <= i < |ms| ==> r[i] == (if ms[i].id == id then ms[i].(isRead := true) else ms[i])
  {
    seq(|ms|, i requires 0 <= i < |ms| => if ms[i].id == id then ms[i].(isRead := true) else ms[i])
  }

  /** Marking as read touches no id and no content: only the flag of the
      messages with that id, which ends up set; marking twice is marking once. */
  lemma MarkReadByIdMeaning(ms: seq<ContactMessage>, id: nat)
    ensures forall i :: 0 <= i < |ms| ==> MarkReadById(ms, id)[i].(isRead := ms[i].isRead) == ms[i]
    ensures forall i :: 0 <= i < |ms| ==> (MarkReadById(ms, id)[i].isRead <==> ms[i].isRead || ms[i].id == id)
    ensures MarkReadById(MarkReadById(ms, id), id) == MarkReadById(ms, id)
  {
  }

  /** `messages.filter(msg => msg.id !== id)` */
  function RemoveById(ms: seq<ContactMessage>, id: nat): (r: seq<ContactMessage>)
    ensures |r| <= |ms|
    ensures forall m :: m in r <==> m in ms && m.id != id
  {
    Filter(ms, (m: ContactMessage) => m.id != id)
  }

  /** Deleting keeps the other messages in order, and a list without that
      id is left as it is. */
  lemma RemoveByIdOrdered(a: seq<ContactMessage>, b: seq<ContactMessage>, id: nat)
    ensures RemoveById(a + b, id) == RemoveById(a, id) + RemoveById(b, id)
    ensures (forall i :: 0 <= i < |a| ==> a[i].id != id) ==> RemoveById(a, id) == a
  {
    FilterAppend(a, b, (m: ContactMessage) => m.id != id);
    if forall i :: 0 <= i < |a| ==> a[i].id != id {
      FilterAllKept(a, (m: ContactMessage) => m.id != id);
    }
  }

  class Inbox {
    var messages: seq<ContactMessage>
    var loading: bool
    var selectedMessage: Option<ContactMessage>
    var isDialogOpen: bool

    /** The first render: loading, nothing selected. */
    constructor ()
      ensures messages == [] && loading && selectedMessage.None? && !isDialogOpen
    {
      messages, loading := [], true;
      selectedMessage, isDialogOpen := None, false;
    }

    /** `fetchMessages`: the list is replaced on success, kept on failure,
        and loading ends either way. */
    method FetchMessages(fetched: Option<seq<ContactMessage>>)
      modifies this
      ensures fetched.Some? ==> messages == fetched.value
      ensures fetched.None? ==> messages == old(messages)
      ensures !loading
      ensures selectedMessage == old(selectedMessage) && isDialogOpen == old(isDialogOpen)
    {
      if fetched.Some? {
        messages := fetched.value;
      }
      loading := false;
    }

    /** `handleMarkAsRead(id)` as the table's button calls it. `selected` is
        the selection the calling render saw, which for the button is the
        current one. */
    method MarkAsRead(id: nat, marked: bool, selected: Option<ContactMessage>)
      modifies this
      ensures marked ==> messages == MarkReadById(old(messages), id)
      ensures marked && selected.Some? && selected.value.id == id ==>
        selectedMessage == Some(selected.value.(isRead := true))
      ensures !(marked && selected.Some? && selected.value.id == id) ==> selectedMessage == old(selectedMessage)
      ensures !marked ==> messages == old(messages)
      ensures loading == old(loading) && isDialogOpen == old(isDialogOpen)
    {
      if marked {
        messages := MarkReadById(messages, id);
        if selected.Some? && selected.value.id == id {
          selectedMessage := Some(selected.value.(isRead := true));
        }
      }
    }

    /** `handleViewMessage(message)`: the message is selected and the dialog
        opens; an unread one is also marked read. The mark-as-read handler it
        calls belongs to the same render, so it tests the selection made
        before this click: the list is updated, but the freshly selected
        message keeps its unread flag unless the previous selection was the
        same message. */
    method ViewMessage(message: ContactMessage, marked: bool) returns (request: Option<nat>)
      modifies this
      ensures isDialogOpen
      ensures message.isRead ==> request.None? && messages == old(messages) && selectedMessage == Some(message)
      ensures !message.isRead ==> request == Some(message.id)
      ensures !message.isRead && marked ==> messages == MarkReadById(old(messages), message.id)
      ensures !message.isRead && !marked ==> messages == old(messages)
      ensures !message.isRead && marked && old(selectedMessage).Some? && old(selectedMessage).value.id == message.id ==>
        selectedMessage == Some(old(selectedMessage).value.(isRead := true))
      ensures !(!message.isRead && marked && old(selectedMessage).Some? && old(selectedMessage).value.id == message.id) ==>
        selectedMessage == Some(message)
      ensures loading == old(loading)
    {
      var previous := selectedMessage;
      selectedMessage := Some(message);
      isDialogOpen := true;
      request := None;
      if !message.isRead {
        request := Some(message.id);
        MarkAsRead(message.id, marked, previous);
      }
    }

    /** `handleDeleteMessage(id)`: the dialog and the selection are left as
        they are. */
    method DeleteMessage(id: nat, deleted: bool)
      modifies this
      ensures deleted ==> messages == RemoveById(old(messages), id)
      ensures !deleted ==> messages == old(messages)
      ensures selectedMessage == old(selectedMessage) && isDialogOpen == old(isDialogOpen)
      ensures loading == old(loading)
    {
      if deleted {
        messages := RemoveById(messages, id);
      }
    }
  }

  /** Viewing an unread message that was not already selected marks it
      read in the list while the dialog's copy stays unread. */
  method ViewFreshMessage(ms: seq<ContactMessage>, k: nat) returns (listed: ContactMessage, shown: ContactMessage)
    requires k < |ms| && !ms[k].isRead
    ensures listed.isRead && listed.id == ms[k].id
    ensures shown == ms[k] && !shown.isRead
  {
    var inbox := new Inbox();
    inbox.FetchMessages(Some(ms));
    var _ := inbox.ViewMessage(ms[k], true);
    listed := inbox.messages[k];
    shown := inbox.selectedMessage.value;
  }
}
