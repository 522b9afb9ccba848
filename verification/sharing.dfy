/** Items shared into a group, and the group chat's messages: the guards the
    two services put in front of their repositories. Repositories are maps
    from id to record; the item services of the other back ends are a
    parameter that says whether the user may open the item. */
module SharedItems {
  import opened Common
  import opened Groups

  datatype ItemType = Document | Summary | FlashcardSet | OtherItem(name: string)

  datatype SharedItem = SharedItem(groupId: string, itemId: string, itemType: ItemType, sharedBy: string,
                                   sharedAt: nat, title: string, description: string, accessType: string)

  type Items = map<string, SharedItem>

  predicate Supported(t: ItemType) {
    !t.OtherItem?
  }

  /** The same item of the same type is already shared in the group. */
  predicate SharedInGroup(items: Items, groupId: string, itemId: string, t: ItemType) {
    exists k :: k in items && items[k].groupId == groupId && items[k].itemId == itemId && items[k].itemType == t
  }

  /** No item is shared twice into the same group. */
  predicate NoDuplicates(items: Items) {
    forall a, b :: a in items && b in items && a != b ==>
      !(items[a].groupId == items[b].groupId && items[a].itemId == items[b].itemId && items[a].itemType == items[b].itemType)
  }

  const CannotShare := "User is not allowed to share items in this group"
  const NoAccess := "User does not have access to the item or item does not exist"
  const AlreadyShared := "Item is already shared in this group"

  /** `verifyItemAccess`: the matching item service must return the item;
      an unsupported type throws inside the same `try`, so every failure is
      reported as missing access. */
  function VerifyItemAccess(itemId: string, t: ItemType, userId: string,
                            canOpen: (ItemType, string, string) -> bool): (r: Outcome<()>)
    ensures r.Ok? <==> Supported(t) && canOpen(t, itemId, userId)
    ensures !r.Ok? ==> r == Unauthorized(NoAccess)
  {
    if t.OtherItem? then Unauthorized(NoAccess)
    else if canOpen(t, itemId, userId) then Ok(())
    else Unauthorized(NoAccess)
  }

  /** `shareItem`, storing the new record under `newId`. */
  function ShareItem(groups: Repo, items: Items, groupId: string, itemId: string, t: ItemType, userId: string,
                     title: string, description: string, accessType: string, now: nat, newId: string,
                     canOpen: (ItemType, string, string) -> bool): (r: Outcome<Items>)
    requires newId !in items
    ensures groupId !in groups ==> r == NotFound(NotFoundText(groupId))
    ensures groupId in groups && CanUserShareInGroup(groups, groupId, userId) == Ok(false) ==>
              r == Unauthorized(CannotShare)
    ensures r.Ok? <==> CanUserShareInGroup(groups, groupId, userId) == Ok(true) &&
                       Supported(t) && canOpen(t, itemId, userId) &&
                       !SharedInGroup(items, groupId, itemId, t)
    ensures r.Ok? ==> r.value == items[newId := SharedItem(groupId, itemId, t, userId, now, title, description, accessType)]
    ensures r.Ok? ==> SharedInGroup(r.value, groupId, itemId, t)
    ensures (CanUserShareInGroup(groups, groupId, userId) == Ok(true) && Supported(t) && canOpen(t, itemId, userId) &&
             SharedInGroup(items, groupId, itemId, t)) ==> r == Invalid(AlreadyShared)
  {
    match CanUserShareInGroup(groups, groupId, userId)
    case Ok(can) =>
      if !can then Unauthorized(CannotShare)
      else
        (match VerifyItemAccess(itemId, t, userId, canOpen)
         case Ok(_) =>
           if SharedInGroup(items, groupId, itemId, t) then Invalid(AlreadyShared)
           else
             var rec := SharedItem(groupId, itemId, t, userId, now, title, description, accessType);
             var r := items[newId := rec];
             assert r[newId] == rec;
             Ok(r)
         case NotFound(e) => NotFound(e)
         case Unauthorized(e) => Unauthorized(e)
         case Invalid(e) => Invalid(e))
    case NotFound(e) => NotFound(e)
    case Unauthorized(e) => Unauthorized(e)
    case Invalid(e) => Invalid(e)
  }

  /** Sharing keeps the repository free of duplicates. */
  lemma ShareKeepsNoDuplicates(groups: Repo, items: Items, groupId: string, itemId: string, t: ItemType,
                               userId: string, title: string, description: string, accessType: string,
                               now: nat, newId: string, canOpen: (ItemType, string, string) -> bool)
    requires newId !in items && NoDuplicates(items)
    ensures var r := ShareItem(groups, items, groupId, itemId, t, userId, title, description, accessType, now, newId, canOpen);
            r.Ok? ==> NoDuplicates(r.value)
  {
    var r := ShareItem(groups, items, groupId, itemId, t, userId, title, description, accessType, now, newId, canOpen);
    if r.Ok? {
      var s := r.value;
      forall a, b | a in s && b in s && a != b
        ensures !(s[a].groupId == s[b].groupId && s[a].itemId == s[b].itemId && s[a].itemType == s[b].itemType)
      {
        if a == newId {
          assert b in items;
        } else if b == newId {
          assert a in items;
        }
      }
    }
  }

  /** Items of any type other than the three the services know can never be
      shared. */
  lemma UnsupportedNeverShared(groups: Repo, items: Items, groupId: string, itemId: string, name: string,
                               userId: string, title: string, description: string, accessType: string,
                               now: nat, newId: string, canOpen: (ItemType, string, string) -> bool)
    requires newId !in items && groupId in groups
    ensures var r := ShareItem(groups, items, groupId, itemId, OtherItem(name), userId, title, description,
                               accessType, now, newId, canOpen);
            r.Unauthorized?
  {
  }

  function SharedNotFound(id: string): string {
    "Shared item not found with id: " + id
  }

  const CannotRemove := "User is not allowed to remove this shared item"

  /** The sharer may always act; anyone else needs the owner or admin role in
      the item's group, which is only looked up in that case (and may then
      be missing). */
  function MayManage(groups: Repo, groupId: string, author: string, userId: string): (r: Outcome<bool>)
    ensures author == userId ==> r == Ok(true)
    ensures author != userId && groupId !in groups ==> r == NotFound(NotFoundText(groupId))
    ensures author != userId && groupId in groups ==> r == Ok(IsOwnerOrAdmin(groups[groupId], userId))
  {
    if author == userId then Ok(true)
    else
      match GetGroupById(groups, groupId)
      case Ok(g) => Ok(IsOwnerOrAdmin(g, userId))
      case NotFound(e) => NotFound(e)
      case Unauthorized(e) => Unauthorized(e)
      case Invalid(e) => Invalid(e)
  }

  /** `removeSharedItem`. */
  function RemoveSharedItem(groups: Repo, items: Items, id: string, userId: string): (r: Outcome<Items>)
    ensures id !in items ==> r == NotFound(SharedNotFound(id))
    ensures r.Ok? <==> id in items && (items[id].sharedBy == userId ||
                                       (items[id].groupId in groups && IsOwnerOrAdmin(groups[items[id].groupId], userId)))
    ensures r.Ok? ==> r.value == items - {id}
    ensures (id in items && items[id].sharedBy != userId && items[id].groupId in groups &&
             !IsOwnerOrAdmin(groups[items[id].groupId], userId)) ==> r == Unauthorized(CannotRemove)
  {
    if id !in items then NotFound(SharedNotFound(id))
    else
      match MayManage(groups, items[id].groupId, items[id].sharedBy, userId)
      case Ok(may) => if may then Ok(items - {id}) else Unauthorized(CannotRemove)
      case NotFound(e) => NotFound(e)
      case Unauthorized(e) => Unauthorized(e)
      case Invalid(e) => Invalid(e)
  }
}

module GroupMessages {
  import opened Common
  import opened Groups

  datatype ChatMessage = ChatMessage(id: Option<string>, groupId: string, senderId: string, content: string,
                                     sentAt: Option<nat>)

  type Messages = map<string, ChatMessage>

  const NotAMember := "User is not a member of the group"
  const CannotDelete := "User is not allowed to delete this message"

  /** `sendMessage`: members only; the message is stamped with the current
      time and saved under its own id, or under `freshId`, a newly generated
      id no stored message has, when it has none. */
  function SendMessage(groups: Repo, msgs: Messages, m: ChatMessage, now: nat, freshId: string): (r: Outcome<Messages>)
    requires m.id.None? ==> freshId !in msgs
    ensures m.groupId !in groups ==> r == NotFound(NotFoundText(m.groupId))
    ensures m.groupId in groups && !IsMember(groups[m.groupId], m.senderId) ==> r == Unauthorized(NotAMember)
    ensures r.Ok? <==> m.groupId in groups && IsMember(groups[m.groupId], m.senderId)
    ensures r.Ok? ==> var key := m.id.GetOr(freshId);
              && key in r.value && r.value[key] == m.(sentAt := Some(now))
              && forall k :: k in msgs && k != key ==> k in r.value && r.value[k] == msgs[k]
    ensures r.Ok? && m.id.None? ==>
              r.value.Keys == msgs.Keys + {freshId} && forall k :: k in msgs ==> r.value[k] == msgs[k]
  {
    match IsUserMemberOfGroup(groups, m.groupId, m.senderId)
    case Ok(member) =>
      if !member then Unauthorized(NotAMember)
      else Ok(msgs[m.id.GetOr(freshId) := m.(sentAt := Some(now))])
    case NotFound(e) => NotFound(e)
    case Unauthorized(e) => Unauthorized(e)
    case Invalid(e) => Invalid(e)
  }

  /** Every stored message that came through `sendMessage` carries a send
      time and was written by a member. */
  lemma SentMessagesAreStamped(groups: Repo, msgs: Messages, m: ChatMessage, now: nat, freshId: string)
    requires m.id.None? ==> freshId !in msgs
    requires SendMessage(groups, msgs, m, now, freshId).Ok?
    ensures var r := SendMessage(groups, msgs, m, now, freshId).value;
            var key := m.id.GetOr(freshId);
            r[key].sentAt == Some(now) && IsMember(groups[r[key].groupId], r[key].senderId)
  {
  }

  function MessageNotFound(id: string): string {
    "Message not found with id: " + id
  }

  function GetMessageById(msgs: Messages, id: string): (r: Outcome<ChatMessage>)
    ensures r.Ok? <==> id in msgs
    ensures r.Ok? ==> r.value == msgs[id]
    ensures !r.Ok? ==> r == NotFound(MessageNotFound(id))
  {
    if id in msgs then Ok(msgs[id]) else NotFound(MessageNotFound(id))
  }

  /** `deleteMessage`: the sender, or an owner or admin of the group. */
  function DeleteMessage(groups: Repo, msgs: Messages, id: string, userId: string): (r: Outcome<Messages>)
    ensures id !in msgs ==> r == NotFound(MessageNotFound(id))
    ensures r.Ok? <==> id in msgs && (msgs[id].senderId == userId ||
                                      (msgs[id].groupId in groups && IsOwnerOrAdmin(groups[msgs[id].groupId], userId)))
    ensures r.Ok? ==> r.value == msgs - {id}
    ensures (id in msgs && msgs[id].senderId != userId && msgs[id].groupId in groups &&
             !IsOwnerOrAdmin(groups[msgs[id].groupId], userId)) ==> r == Unauthorized(CannotDelete)
  {
    match GetMessageById(msgs, id)
    case Ok(msg) =>
      if msg.senderId == userId then Ok(msgs - {id})
      else
        (match GetGroupById(groups, msg.groupId)
         case Ok(g) => if IsOwnerOrAdmin(g, userId) then Ok(msgs - {id}) else Unauthorized(CannotDelete)
         case NotFound(e) => NotFound(e)
         case Unauthorized(e) => Unauthorized(e)
         case Invalid(e) => Invalid(e))
    case NotFound(e) => NotFound(e)
    case Unauthorized(e) => Unauthorized(e)
    case Invalid(e) => Invalid(e)
  }

  /** A plain member who did not write a message cannot delete it. */
  lemma PlainMemberCannotDelete(groups: Repo, msgs: Messages, id: string, userId: string)
    requires id in msgs && msgs[id].senderId != userId && msgs[id].groupId in groups
    requires var g := groups[msgs[id].groupId];
             forall i :: 0 <= i < |g.members| && g.members[i].userId == userId ==> g.members[i].role == Member
    ensures !DeleteMessage(groups, msgs, id, userId).Ok?
  {
    var g := groups[msgs[id].groupId];
    var m := GetMember(g, userId);
    if m.Some? {
      var i :| 0 <= i < |g.members| && g.members[i] == m.value;
    }
  }
}
