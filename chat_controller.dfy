/**
 * `DefaultChatController`: the per-conversation message store.  It keeps the
 * SDK messages of the open conversation ordered by `sendTime`, merges pages
 * and pushed messages into it, tracks the multi-selection used by the
 * editing toolbar, rewrites sender profiles when they change, and hands the
 * view a fresh snapshot (one section of rows) after each change.
 *
 * The asynchronous hand-off of a snapshot (`propagateLatestMessages` and the
 * `delegate.update(with:requiresIsolatedProcess:)` it leads to) is modelled by
 * returning the snapshot the delegate would receive.
 */
module ChatController {
  import opened Opt
  import opened ChatMessage
  import opened ChatStore

  /** The conversation the screen shows, as far as the store reads it. */
  datatype ConversationInfo = ConversationInfo(conversationType: ConversationType, userID: Option<string>, groupID: Option<string>)

  datatype FriendInfo = FriendInfo(userID: Option<string>, faceURL: Option<string>, showName: string)

  datatype UserInfo = UserInfo(userID: Option<string>, faceURL: Option<string>, nickname: Option<string>)

  datatype GroupMemberInfo = GroupMemberInfo(userID: Option<string>, isSelf: bool, faceURL: Option<string>, nickname: Option<string>)

  /** What `delegate.update(with:requiresIsolatedProcess:)` receives. */
  datatype DelegateUpdate = DelegateUpdate(sections: seq<Section>, requiresIsolatedProcess: bool)

  /** Swift's `otherInfo?.userID`: absent when there is no friend info. */
  function FriendUserID(f: Option<FriendInfo>): Option<string> {
    match f
    case None => None
    case Some(i) => i.userID
  }

  function FriendFaceURL(f: Option<FriendInfo>): Option<string> {
    match f
    case None => None
    case Some(i) => i.faceURL
  }

  /**
   * `received`'s test: the message belongs to the open one-to-one chat (sent
   * by the peer, or sent by me to the peer) or to the open group.
   */
  predicate IsCurrentChat(conversation: ConversationInfo, message: MessageInfo, myUid: string) {
    var isCurSingleChat := message.sessionType == C2C && conversation.conversationType == C2C &&
      (Some(message.sendID) == conversation.userID ||
       (message.sendID == myUid && Some(message.recvID) == conversation.userID));
    var isCurGroupChat := message.sessionType == SuperGroup && conversation.conversationType == SuperGroup &&
      conversation.groupID == message.groupID;
    isCurGroupChat || isCurSingleChat
  }

  /** A pushed message never lands in a chat of the other kind. */
  lemma CurrentChatMatchesKind(conversation: ConversationInfo, message: MessageInfo, myUid: string)
    requires IsCurrentChat(conversation, message, myUid)
    ensures message.sessionType == conversation.conversationType
    ensures message.sessionType == C2C || message.sessionType == SuperGroup
    ensures message.sessionType == SuperGroup ==> message.groupID == conversation.groupID
    ensures message.sessionType == C2C ==> conversation.userID.Some?
  {
  }

  datatype StoreState = StoreState(messages: seq<MessageInfo>, recvMessageIsCurrentChat: bool, unReadCount: int)

  /**
   * What `received(messages:forceReload:)` does to the store, and whether it
   * repopulates the view.
   */
  function ReceivedStore(st: StoreState, conversation: ConversationInfo, myUid: string,
                         msgs: seq<MessageInfo>, forceReload: bool, now: int): (StoreState, bool)
  {
    if forceReload then (st.(messages := AppendConverting(st.messages, msgs, true, now)), true)
    else if |msgs| == 0 then (st, false)
    else ReceivedOne(st, conversation, myUid, msgs[0], now)
  }

  /** The non-forced push: only its first message is looked at. */
  function ReceivedOne(st: StoreState, conversation: ConversationInfo, myUid: string,
                       message: MessageInfo, now: int): (StoreState, bool)
  {
    if IsCurrentChat(conversation, message, myUid) then
      (StoreState(AppendConverting(st.messages, [message], false, now), true, st.unReadCount), true)
    else
      (StoreState(st.messages, false, st.unReadCount + (if message.isMine then 0 else 1)), false)
  }

  /**
   * The outcomes of a push: a forced reload replaces the store by the kept
   * messages of the batch, sorted; an empty push changes nothing; a message
   * of the open chat is merged into the sorted store exactly when it is
   * still valid (the store grows by at most one); any other
   * message leaves the store alone and counts as unread unless I sent it.
   */
  lemma ReceivedOutcomes(st: StoreState, conversation: ConversationInfo, myUid: string,
                         msgs: seq<MessageInfo>, forceReload: bool, now: int)
    ensures var (st2, repopulate) := ReceivedStore(st, conversation, myUid, msgs, forceReload, now);
      (forceReload ==>
         repopulate && st2.unReadCount == st.unReadCount &&
         (forall x :: x in st2.messages <==> x in msgs && IsStillValid(x, now)) &&
         multiset(st2.messages) == multiset(FilterValid(msgs, now)) &&
         (|msgs| > 0 ==> SortedByTime(st2.messages))) &&
      (!forceReload && |msgs| == 0 ==> st2 == st && !repopulate) &&
      (!forceReload && |msgs| > 0 && IsCurrentChat(conversation, msgs[0], myUid) ==>
         repopulate && st2.recvMessageIsCurrentChat && st2.unReadCount == st.unReadCount &&
         |st.messages| <= |st2.messages| <= |st.messages| + 1 &&
         (forall x :: x in st.messages ==> x in st2.messages) &&
         SortedByTime(st2.messages) &&
         multiset(st2.messages) ==
           multiset(st.messages) + (if IsStillValid(msgs[0], now) then multiset{msgs[0]} else multiset{})) &&
      (!forceReload && |msgs| > 0 && !IsCurrentChat(conversation, msgs[0], myUid) ==>
         !repopulate && st2.messages == st.messages && !st2.recvMessageIsCurrentChat &&
         st2.unReadCount == st.unReadCount + (if msgs[0].isMine then 0 else 1))
  {
    AppendConvertingSpec(st.messages, msgs, true, now);
    if |msgs| > 0 {
      AppendConvertingSpec(st.messages, [msgs[0]], false, now);
      FilterValidConcat([msgs[0]], [], now);
    }
  }

  /** Every message with its selection flag cleared (`resetSelectedStatus`). */
  function Unflagged(s: seq<MessageInfo>): (r: seq<MessageInfo>)
    ensures |r| == |s|
    ensures forall j :: 0 <= j < |s| ==> !r[j].isSelected && r[j] == s[j].(isSelected := false)
  {
    seq(|s|, i requires 0 <= i < |s| => s[i].(isSelected := false))
  }

  /**
   * `defaultSelecteMessage(with:onlySelect:)` on the pair (store,
   * selection).  With an id, the selection is emptied and then, unless
   * `onlySelect`, every flag is cleared before the id is toggled; with no id
   * the flags are cleared unless `onlySelect` and the selection is emptied.
   */
  function DefaultSelect(messages: seq<MessageInfo>, selected: seq<MessageInfo>, id: Option<string>, onlySelect: bool)
    : (seq<MessageInfo>, seq<MessageInfo>)
  {
    match id
    case Some(i) =>
      if !onlySelect then ToggleSelection(Unflagged(messages), [], i) else ToggleSelection(messages, [], i)
    case None =>
      (if !onlySelect then Unflagged(messages) else messages, [])
  }

  /**
   * Selecting one message by id (not `onlySelect`) leaves exactly that
   * message selected: the selection is empty or that single message, and
   * the only flagged stored message is the first one with that id.
   */
  lemma DefaultSelectSelectsOne(messages: seq<MessageInfo>, selected: seq<MessageInfo>, id: string)
    ensures var (ms, sel) := DefaultSelect(messages, selected, Some(id), false);
      |ms| == |messages| &&
      (HasId(messages, id) ==> |sel| == 1 && sel[0].clientMsgID == id && sel[0].isSelected) &&
      (!HasId(messages, id) ==> sel == []) &&
      forall j :: 0 <= j < |ms| ==> (ms[j].isSelected <==> FirstIndexOf(messages, id) == Some(j))
  {
    var cleared := Unflagged(messages);
    FirstIndexOfSameIds(messages, cleared, id);
    assert FirstIndexOf([], id).None?;
  }

  class DefaultChatController {
    var messages: seq<MessageInfo>
    var selecteMessages: seq<MessageInfo>
    var unReadCount: int
    var recvMessageIsCurrentChat: bool
    var conversation: ConversationInfo
    var groupMembers: Option<seq<GroupMemberInfo>>
    var otherInfo: Option<FriendInfo>
    /** `IMController.shared.uid`. */
    const myUid: string
    /** `Calendar.current.isDate(_:equalTo:toGranularity: .hour)`. */
    const sameHour: (int, int) -> bool
    /** The image cache's `isCached(forKey:)`. */
    const isCached: string -> bool

    constructor(conversation: ConversationInfo, myUid: string, sameHour: (int, int) -> bool, isCached: string -> bool)
      ensures this.conversation == conversation && this.myUid == myUid
      ensures this.sameHour == sameHour && this.isCached == isCached
      ensures messages == [] && selecteMessages == [] && unReadCount == 0 && !recvMessageIsCurrentChat
      ensures groupMembers.None? && otherInfo.None?
    {
      this.conversation := conversation;
      this.myUid := myUid;
      this.sameHour := sameHour;
      this.isCached := isCached;
      messages := [];
      selecteMessages := [];
      unReadCount := 0;
      recvMessageIsCurrentChat := false;
      groupMembers := None;
      otherInfo := None;
    }

    /**
     * The snapshot `propagateLatestMessages` hands out: one section with id
     * 0 holding one date row per same-hour run and one row per stored
     * message, in store order: each run is the date row of its first
     * message followed by its message rows.
     */
    function Snapshot(): (r: seq<Section>)
      reads this
      ensures |r| == 1 && r[0].id == 0 && r[0].title == ""
      ensures WithoutDates(r[0].cells) == MessageRows(ConvertAll(messages, isCached))
      ensures |r[0].cells| == |messages| + |GroupMessagesByDay(messages)|
      ensures forall k: nat :: k < |GroupMessagesByDay(messages)| ==> RunPlaced(r[0].cells, GroupMessagesByDay(messages), k)
    {
      LatestSectionsShape(messages, sameHour, isCached);
      LatestSections(messages, sameHour, isCached)
    }

    /**
     * `groupMessagesByDay`: the same-hour runs of the converted store.  It
     * reads the stored messages; its argument is not used.
     */
    function GroupMessagesByDay(ignored: seq<MessageInfo>): (g: seq<seq<Message>>)
      reads this
      ensures Flatten(g) == ConvertAll(messages, isCached)
      ensures forall k :: 0 <= k < |g| ==> |g[k]| > 0
      ensures RunsShareHour(g, sameHour) && BoundariesSplitHour(g, sameHour)
    {
      GroupByHourFlattens(ConvertAll(messages, isCached), sameHour);
      GroupByHourRuns(ConvertAll(messages, isCached), sameHour);
      GroupByHour(ConvertAll(messages, isCached), sameHour)
    }

    /** `repopulateMessages(requiresIsolatedProcess:)`. */
    function Repopulate(requiresIsolatedProcess: bool): (u: DelegateUpdate)
      reads this
      ensures u.sections == Snapshot() && u.requiresIsolatedProcess == requiresIsolatedProcess
    {
      DelegateUpdate(Snapshot(), requiresIsolatedProcess)
    }

    /** `messageIsExsit(with:)`. */
    predicate MessageIsExsit(id: string)
      reads this
      ensures MessageIsExsit(id) <==> FirstIndexOf(messages, id).Some?
    {
      HasId(messages, id)
    }

    /** `getMessageInfo(ids:)`. */
    function GetMessageInfo(ids: seq<string>): (r: seq<MessageInfo>)
      reads this
      ensures forall x :: x in r <==> x in messages && x.clientMsgID in ids
      ensures forall x :: multiset(r)[x] == if x.clientMsgID in ids then multiset(messages)[x] else 0
    {
      MessagesWithIdsCount(messages, ids);
      MessagesWithIds(messages, ids)
    }

    /**
     * `appendMessage`: the first stored message with the same `clientMsgID`
     * is replaced in place, otherwise the message is appended; then the new
     * snapshot is handed out.
     */
    method AppendMessage(message: MessageInfo) returns (sections: seq<Section>)
      modifies this`messages
      ensures messages == Upsert(old(messages), message)
      ensures sections == Snapshot()
    {
      var exist := false;
      var i := 0;
      while i < |messages|
        invariant 0 <= i <= |messages|
        invariant messages == old(messages)
        invariant forall j :: 0 <= j < i ==> messages[j].clientMsgID != message.clientMsgID
      {
        if messages[i].clientMsgID == message.clientMsgID {
          assert FirstIndexOf(messages, message.clientMsgID) == Some(i);
          messages := messages[i := message];
          exist := true;
          break;
        }
        i := i + 1;
      }
      if !exist {
        messages := messages + [message];
      }
      sections := Snapshot();
    }

    /** `replaceMessage`: replace the first message with the same id; otherwise nothing. */
    method ReplaceMessage(message: MessageInfo)
      modifies this`messages
      ensures messages == Replace(old(messages), message)
    {
      var i := 0;
      while i < |messages|
        invariant 0 <= i <= |messages|
        invariant messages == old(messages)
        invariant forall j :: 0 <= j < i ==> messages[j].clientMsgID != message.clientMsgID
      {
        if messages[i].clientMsgID == message.clientMsgID {
          assert FirstIndexOf(messages, message.clientMsgID) == Some(i);
          messages := messages[i := message];
          break;
        }
        i := i + 1;
      }
    }

    /**
     * `appendConvertingToMessages`: optionally empty the store, then, for a
     * non-empty batch, append the messages that are still valid at `now`
     * and sort the store by `sendTime`.
     */
    method AppendConvertingToMessages(rawMessages: seq<MessageInfo>, removeAll: bool, now: int)
      modifies this`messages
      ensures messages == AppendConverting(old(messages), rawMessages, removeAll, now)
    {
      if removeAll {
        messages := [];
      }
      if |rawMessages| == 0 {
        return;
      }
      var validMessages := FilterValid(rawMessages, now);
      messages := SortByTime(messages + validMessages);
    }

    /** `insertConvertingToMessages`: new page in front, then the whole store sorted. */
    method InsertConvertingToMessages(rawMessages: seq<MessageInfo>)
      modifies this`messages
      ensures messages == InsertConverting(old(messages), rawMessages)
    {
      messages := SortByTime(rawMessages + messages);
    }

    /** `resetSelectedStatus`: clear the selection flag of every stored message. */
    method ResetSelectedStatus()
      modifies this`messages
      ensures messages == Unflagged(old(messages))
    {
      var i := 0;
      while i < |messages|
        invariant 0 <= i <= |messages| == |old(messages)|
        invariant forall j :: 0 <= j < i ==> messages[j] == old(messages)[j].(isSelected := false)
        invariant forall j :: i <= j < |messages| ==> messages[j] == old(messages)[j]
      {
        messages := messages[i := messages[i].(isSelected := false)];
        i := i + 1;
      }
    }

    /** `seleteMessageHelper(with:)`: toggle one message in and out of the selection. */
    method SeleteMessageHelper(id: string)
      modifies this`messages, this`selecteMessages
      ensures (messages, selecteMessages) == ToggleSelection(old(messages), old(selecteMessages), id)
    {
      match FirstIndexOf(selecteMessages, id)
      case Some(index) =>
        selecteMessages := selecteMessages[..index] + selecteMessages[index + 1..];
        match FirstIndexOf(messages, id) {
          case Some(j) =>
            messages := messages[j := messages[j].(isSelected := false)];
          case None =>
        }
      case None =>
        match FirstIndexOf(messages, id) {
          case Some(j) =>
            var item := messages[j].(isSelected := true);
            messages := messages[j := item];
            selecteMessages := selecteMessages + [item];
          case None =>
        }
    }

    /** `selecteMessage(with:)`: toggle, then repopulate in isolation. */
    method SelecteMessage(id: string) returns (update: DelegateUpdate)
      modifies this`messages, this`selecteMessages
      ensures (messages, selecteMessages) == ToggleSelection(old(messages), old(selecteMessages), id)
      ensures update == Repopulate(true)
    {
      SeleteMessageHelper(id);
      update := Repopulate(true);
    }

    /** `defaultSelecteMessage(with:onlySelect:)`. */
    method DefaultSelecteMessage(id: Option<string>, onlySelect: bool) returns (update: Option<DelegateUpdate>)
      modifies this`messages, this`selecteMessages
      ensures (messages, selecteMessages) == DefaultSelect(old(messages), old(selecteMessages), id, onlySelect)
      ensures update.Some? <==> id.Some? && !onlySelect
      ensures update.Some? ==> update.value == Repopulate(true)
    {
      match id
      case Some(i) =>
        selecteMessages := [];
        if !onlySelect {
          ResetSelectedStatus();
          var u := SelecteMessage(i);
          update := Some(u);
        } else {
          SeleteMessageHelper(i);
          update := None;
        }
      case None =>
        if !onlySelect {
          ResetSelectedStatus();
        }
        selecteMessages := [];
        update := None;
    }

    /** The sender rewrite loop shared by the three profile-change handlers. */
    method RewriteSenders(userID: Option<string>, faceURL: Option<string>, nickname: Option<string>)
      modifies this`messages
      ensures messages == RewriteSender(old(messages), userID, faceURL, nickname)
    {
      var i := 0;
      while i < |messages|
        invariant 0 <= i <= |messages| == |old(messages)|
        invariant forall j :: 0 <= j < i ==> messages[j] == RewriteSender(old(messages), userID, faceURL, nickname)[j]
        invariant forall j :: i <= j < |messages| ==> messages[j] == old(messages)[j]
      {
        if Some(messages[i].sendID) == userID {
          messages := messages[i := messages[i].(senderFaceUrl := faceURL, senderNickname := nickname)];
        }
        i := i + 1;
      }
    }

    /**
     * `friendInfoChanged`: for the chat peer whose face URL changed, rewrite
     * the peer's messages (face URL and display name) and repopulate in
     * isolation; the peer's info is then remembered.
     */
    method FriendInfoChanged(info: FriendInfo) returns (update: Option<DelegateUpdate>)
      modifies this`messages, this`otherInfo
      ensures var isPeer := info.userID == FriendUserID(old(otherInfo));
        var rewrite := isPeer && FriendFaceURL(old(otherInfo)) != info.faceURL;
        messages == (if rewrite then RewriteSender(old(messages), info.userID, info.faceURL, Some(info.showName)) else old(messages)) &&
        otherInfo == (if isPeer then Some(info) else old(otherInfo)) &&
        (update.Some? <==> rewrite) &&
        (update.Some? ==> update.value == Repopulate(true))
    {
      update := None;
      if info.userID == FriendUserID(otherInfo) {
        if FriendFaceURL(otherInfo) != info.faceURL {
          RewriteSenders(info.userID, info.faceURL, Some(info.showName));
          update := Some(Repopulate(true));
        }
        otherInfo := Some(info);
      }
    }

    /** `myUserInfoChanged`: rewrite my own messages and repopulate in isolation. */
    method MyUserInfoChanged(info: UserInfo) returns (update: DelegateUpdate)
      modifies this`messages
      ensures messages == RewriteSender(old(messages), info.userID, info.faceURL, info.nickname)
      ensures update == Repopulate(true)
    {
      RewriteSenders(info.userID, info.faceURL, info.nickname);
      update := Repopulate(true);
    }

    /**
     * `groupMemberInfoChanged`: another member's cached info is replaced at
     * its first position; that member's messages are rewritten and the
     * store repopulated in isolation.
     */
    method GroupMemberInfoChanged(info: GroupMemberInfo) returns (update: DelegateUpdate)
      modifies this`messages, this`groupMembers
      ensures groupMembers == (if info.isSelf then old(groupMembers) else ReplaceMember(old(groupMembers), info))
      ensures messages == RewriteSender(old(messages), info.userID, info.faceURL, info.nickname)
      ensures update == Repopulate(true)
    {
      if !info.isSelf {
        match groupMembers {
          case Some(ms) =>
            match FirstMemberIndex(ms, info.userID) {
              case Some(index) =>
                groupMembers := Some(ms[index := info]);
              case None =>
            }
          case None =>
        }
      }
      RewriteSenders(info.userID, info.faceURL, info.nickname);
      update := Repopulate(true);
    }

    /** `received(messages:forceReload:)`, proved against `ReceivedStore`. */
    method Received(msgs: seq<MessageInfo>, forceReload: bool, now: int) returns (update: Option<DelegateUpdate>)
      modifies this`messages, this`recvMessageIsCurrentChat, this`unReadCount
      ensures State() == ReceivedStore(old(State()), conversation, myUid, msgs, forceReload, now).0
      ensures update.Some? == ReceivedStore(old(State()), conversation, myUid, msgs, forceReload, now).1
      ensures update.Some? ==> update.value == Repopulate(false)
    {
      if forceReload {
        AppendConvertingToMessages(msgs, true, now);
        update := Some(Repopulate(false));
        return;
      }
      if |msgs| == 0 {
        update := None;
        return;
      }
      update := ReceivedMessage(msgs[0], now);
    }

    /** The non-forced branch of `received`: the first message of the push. */
    method ReceivedMessage(message: MessageInfo, now: int) returns (update: Option<DelegateUpdate>)
      modifies this`messages, this`recvMessageIsCurrentChat, this`unReadCount
      ensures State() == ReceivedOne(old(State()), conversation, myUid, message, now).0
      ensures update.Some? == ReceivedOne(old(State()), conversation, myUid, message, now).1
      ensures update.Some? ==> update.value == Repopulate(false)
    {
      if IsCurrentChat(conversation, message, myUid) {
        recvMessageIsCurrentChat := true;
        AppendConvertingToMessages([message], false, now);
        update := Some(Repopulate(false));
      } else {
        recvMessageIsCurrentChat := false;
        if !message.isMine {
          unReadCount := unReadCount + 1;
        }
        update := None;
      }
    }

    /** The part of the controller `received` reads and writes. */
    function State(): StoreState
      reads this
    {
      StoreState(messages, recvMessageIsCurrentChat, unReadCount)
    }

    /**
     * The send-result callback of `resend(messageID:)`: the message found
     * when resending started is overwritten by the result unless the result
     * failed again.  `index` is that position (`firstIndex` at the start).
     */
    method ResendCompleted(messageID: string, result: MessageInfo) returns (update: Option<DelegateUpdate>)
      modifies this`messages
      ensures var index := FirstIndexOf(old(messages), messageID);
        messages == (if index.Some? && result.status != StatusSendFailure then old(messages)[index.value := result] else old(messages)) &&
        (update.Some? <==> index.Some? && result.status != StatusSendFailure) &&
        (update.Some? ==> update.value == Repopulate(false))
    {
      update := None;
      match FirstIndexOf(messages, messageID)
      case None =>
      case Some(index) =>
        if result.status != StatusSendFailure {
          messages := messages[index := result];
          update := Some(Repopulate(false));
        }
    }

    /** `conversationChanged(info:)`. */
    method ConversationChanged(info: ConversationInfo)
      modifies this`conversation
      ensures conversation == info
    {
      conversation := info;
    }

    /** `unreadCountChanged(count:)`: forwarded to the delegate only while the last push was for another chat. */
    function UnreadCountChanged(count: int): (forwarded: Option<int>)
      reads this
      ensures forwarded.Some? <==> !recvMessageIsCurrentChat
      ensures forwarded.Some? ==> forwarded.value == count
    {
      if !recvMessageIsCurrentChat then Some(count) else None
    }
  }

  /** Index of the first group member with the given user id. */
  function FirstMemberIndex(ms: seq<GroupMemberInfo>, userID: Option<string>): (r: Option<nat>)
    ensures r.Some? ==> r.value < |ms| && ms[r.value].userID == userID
    ensures r.Some? ==> forall j :: 0 <= j < r.value ==> ms[j].userID != userID
    ensures r.None? <==> forall j :: 0 <= j < |ms| ==> ms[j].userID != userID
  {
    if |ms| == 0 then None
    else if ms[0].userID == userID then Some(0)
    else
      match FirstMemberIndex(ms[1..], userID)
      case None => None
      case Some(k) => Some(k + 1)
  }

  /** Replace the cached info of the first member with the same user id, if the list is loaded and has one. */
  function ReplaceMember(members: Option<seq<GroupMemberInfo>>, info: GroupMemberInfo): (r: Option<seq<GroupMemberInfo>>)
    ensures r.None? <==> members.None?
    ensures r.Some? ==> |r.value| == |members.value|
    ensures r.Some? ==> forall j :: 0 <= j < |r.value| ==> r.value[j].userID == members.value[j].userID
    ensures members.Some? && FirstMemberIndex(members.value, info.userID).Some? ==>
      var i := FirstMemberIndex(members.value, info.userID).value;
      r.value[i] == info && forall j :: 0 <= j < |r.value| && j != i ==> r.value[j] == members.value[j]
    ensures members.Some? && (forall j :: 0 <= j < |members.value| ==> members.value[j].userID != info.userID) ==>
      r == members
  {
    match members
    case None => None
    case Some(ms) =>
      match FirstMemberIndex(ms, info.userID)
      case Some(i) => Some(ms[i := info])
      case None => Some(ms)
  }
}
