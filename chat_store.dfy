/**
 * The pure half of the per-conversation message store: the IM SDK's message
 * record, the private-message expiry filter, the `sendTime` ordering,
 * replace-or-append by `clientMsgID`, the conversion of a stored message into
 * a displayed `Message`, and the row builder (same-hour runs, one date row per
 * run, one row per message, a single section with id 0).
 */
module ChatStore {
  import opened Opt
  import opened ChatMessage

  // ------------------------------------------------------- SDK message record

  /** The IM SDK's conversation / session type. */
  datatype ConversationType = Undefine | C2C | SuperGroup | Notification

  /** The IM SDK's send status of a message. */
  datatype SendStatus = StatusSending | StatusSendSuccess | StatusSendFailure | StatusDeleted

  /** `MessageContentType` raw values of the IM SDK that the store tests against. */
  const TEXT_CONTENT := 101
  const PICTURE_CONTENT := 102
  const CUSTOM_CONTENT := 110
  const FACE_CONTENT := 115

  /**
   * The payload element of a message.  The variant fixes the SDK content
   * type; `OtherElem` carries the raw content type of every other kind and the
   * system-notification text the SDK renders for it.
   */
  datatype ContentElem =
    | TextElem(content: string)
    | PictureElem(sourcePath: string, thumbnailUrl: string, sourceUrl: string, width: int, height: int)
    | CustomElem(customType: Option<int>, data: Option<string>, detail: string)
    | OtherElem(rawContentType: int, notification: Option<string>)

  function ContentTypeOf(e: ContentElem): int {
    match e
    case TextElem(_) => TEXT_CONTENT
    case PictureElem(_, _, _, _, _) => PICTURE_CONTENT
    case CustomElem(_, _, _) => CUSTOM_CONTENT
    case OtherElem(t, _) => t
  }

  /** `AttachedInfoElem`: burn-after-reading data of a private chat message. */
  datatype AttachedInfo = AttachedInfo(isPrivateChat: bool, hasReadTime: int, burnDuration: int)

  /** `MessageInfo` of the IM SDK, as a value. */
  datatype MessageInfo = MessageInfo(
    clientMsgID: string,
    serverMsgID: Option<string>,
    sendTime: int,
    sendID: string,
    recvID: string,
    groupID: Option<string>,
    sessionType: ConversationType,
    elem: ContentElem,
    status: SendStatus,
    isRead: bool,
    isSelected: bool,
    isAnchor: bool,
    isOutgoing: bool,
    isMine: bool,
    senderNickname: Option<string>,
    senderFaceUrl: Option<string>,
    attachedInfo: Option<AttachedInfo>)

  // ------------------------------------------------------------ id lookup

  /** Index of the first message with the given `clientMsgID`, as `firstIndex(where:)`. */
  function FirstIndexOf(s: seq<MessageInfo>, id: string): (r: Option<nat>)
    ensures r.Some? ==> r.value < |s| && s[r.value].clientMsgID == id
    ensures r.Some? ==> forall j :: 0 <= j < r.value ==> s[j].clientMsgID != id
    ensures r.None? <==> forall j :: 0 <= j < |s| ==> s[j].clientMsgID != id
  {
    if |s| == 0 then None
    else if s[0].clientMsgID == id then Some(0)
    else
      match FirstIndexOf(s[1..], id)
      case None => None
      case Some(k) => Some(k + 1)
  }

  predicate HasId(s: seq<MessageInfo>, id: string) {
    exists j :: 0 <= j < |s| && s[j].clientMsgID == id
  }

  /** No two stored messages share a `clientMsgID`. */
  predicate UniqueIds(s: seq<MessageInfo>) {
    forall i, j :: 0 <= i < j < |s| ==> s[i].clientMsgID != s[j].clientMsgID
  }

  /** Replace the first message with `m`'s id by `m`, or append `m` when there is none. */
  function Upsert(s: seq<MessageInfo>, m: MessageInfo): seq<MessageInfo> {
    match FirstIndexOf(s, m.clientMsgID)
    case Some(i) => s[i := m]
    case None => s + [m]
  }

  /** Replace the first message with `m`'s id by `m`; without one nothing changes. */
  function Replace(s: seq<MessageInfo>, m: MessageInfo): seq<MessageInfo> {
    match FirstIndexOf(s, m.clientMsgID)
    case Some(i) => s[i := m]
    case None => s
  }

  /**
   * Replace-or-append grows the store by at most one message, by exactly one
   * iff the id was absent; afterwards the id is present, held by `m` at its
   * first occurrence, and every other position keeps its message.
   */
  lemma UpsertShape(s: seq<MessageInfo>, m: MessageInfo)
    ensures |Upsert(s, m)| == if HasId(s, m.clientMsgID) then |s| else |s| + 1
    ensures FirstIndexOf(Upsert(s, m), m.clientMsgID).Some?
    ensures Upsert(s, m)[FirstIndexOf(Upsert(s, m), m.clientMsgID).value] == m
    ensures forall j :: 0 <= j < |s| && s[j].clientMsgID != m.clientMsgID ==> Upsert(s, m)[j] == s[j]
  {
    var r := Upsert(s, m);
    match FirstIndexOf(s, m.clientMsgID)
    case Some(i) =>
      assert r[i] == m;
      assert forall j :: 0 <= j < i ==> r[j].clientMsgID != m.clientMsgID;
      assert FirstIndexOf(r, m.clientMsgID) == Some(i);
    case None =>
      assert r[|s|] == m;
      assert forall j :: 0 <= j < |s| ==> r[j].clientMsgID != m.clientMsgID;
      assert FirstIndexOf(r, m.clientMsgID) == Some(|s|);
  }

  /** Replace-or-append keeps the ids of a store unique. */
  lemma UpsertKeepsIdsUnique(s: seq<MessageInfo>, m: MessageInfo)
    requires UniqueIds(s)
    ensures UniqueIds(Upsert(s, m))
  {
    var r := Upsert(s, m);
    match FirstIndexOf(s, m.clientMsgID)
    case Some(i) =>
      forall a, b | 0 <= a < b < |r|
        ensures r[a].clientMsgID != r[b].clientMsgID
      {
        if a != i && b != i {
          assert r[a] == s[a] && r[b] == s[b];
        }
      }
    case None =>
  }

  /**
   * Replace puts `m` at the first position holding its id and leaves every
   * other position alone, or changes nothing when the id is absent; so it
   * never changes the length or the ids, and keeps ids unique.
   */
  lemma ReplaceKeepsIds(s: seq<MessageInfo>, m: MessageInfo)
    ensures FirstIndexOf(s, m.clientMsgID).Some? ==>
      var i := FirstIndexOf(s, m.clientMsgID).value;
      Replace(s, m)[i] == m && forall j :: 0 <= j < |s| && j != i ==> Replace(s, m)[j] == s[j]
    ensures !HasId(s, m.clientMsgID) ==> Replace(s, m) == s
    ensures |Replace(s, m)| == |s|
    ensures forall j :: 0 <= j < |s| ==> Replace(s, m)[j].clientMsgID == s[j].clientMsgID
    ensures UniqueIds(s) ==> UniqueIds(Replace(s, m))
  {
  }

  // ------------------------------------------------- private-message expiry

  /** Seconds a read private message stays visible: `burnDuration`, or 30 when that is 0. */
  function BurnSeconds(a: AttachedInfo): int {
    if a.burnDuration == 0 then 30 else a.burnDuration
  }

  function Max(a: int, b: int): int {
    if a >= b then a else b
  }

  /**
   * The `compactMap` test of `appendConvertingToMessages`: whether a raw
   * message is kept, `now` being the current time in milliseconds.
   */
  predicate IsStillValid(msg: MessageInfo, now: int) {
    match msg.attachedInfo
    case None => true
    case Some(a) =>
      if !a.isPrivateChat then true
      else if a.hasReadTime > 0 then
        var expirationTime := a.hasReadTime + BurnSeconds(a) * 1000;
        Max(0, expirationTime - now) > 0
      else !msg.isRead
  }

  /**
   * The expiry rule in words: a message is kept iff it is not private, or it
   * was read and its burn deadline is still in the future, or it has no read
   * time and is unread.
   */
  lemma IsStillValidIff(msg: MessageInfo, now: int)
    ensures IsStillValid(msg, now) <==>
      (msg.attachedInfo.None? || !msg.attachedInfo.value.isPrivateChat) ||
      (var a := msg.attachedInfo.value;
       (a.hasReadTime > 0 && a.hasReadTime + (if a.burnDuration == 0 then 30 else a.burnDuration) * 1000 > now) ||
       (a.hasReadTime <= 0 && !msg.isRead))
  {
  }

  /** The messages of `raw` that pass `IsStillValid`, in their order. */
  function FilterValid(raw: seq<MessageInfo>, now: int): (r: seq<MessageInfo>)
    ensures |r| <= |raw|
  {
    if |raw| == 0 then []
    else
      var rest := FilterValid(raw[1..], now);
      assert raw == [raw[0]] + raw[1..];
      if IsStillValid(raw[0], now) then [raw[0]] + rest else rest
  }

  /**
   * The filter keeps order: it distributes over concatenation and keeps or
   * drops a single message by its validity.
   */
  /**
   * The filter keeps exactly the valid messages, each as often as `raw`
   * holds it, and drops every other.
   */
  lemma {:induction false} FilterValidCount(raw: seq<MessageInfo>, now: int)
    ensures forall x :: multiset(FilterValid(raw, now))[x] == if IsStillValid(x, now) then multiset(raw)[x] else 0
    ensures forall x :: x in FilterValid(raw, now) <==> x in raw && IsStillValid(x, now)
  {
    if |raw| > 0 {
      FilterValidCount(raw[1..], now);
      FilterValidUnfold(raw, now);
      assert raw == [raw[0]] + raw[1..];
    }
    var r := FilterValid(raw, now);
    forall x
      ensures x in r <==> x in raw && IsStillValid(x, now)
    {
      assert x in r <==> x in multiset(r);
      assert x in raw <==> x in multiset(raw);
    }
  }

  lemma {:induction false} FilterValidConcat(a: seq<MessageInfo>, b: seq<MessageInfo>, now: int)
    ensures FilterValid(a + b, now) == FilterValid(a, now) + FilterValid(b, now)
    ensures |a| == 1 ==> FilterValid(a, now) == if IsStillValid(a[0], now) then a else []
  {
    if |a| == 0 {
      assert a + b == b;
    } else {
      FilterValidConcat(a[1..], b, now);
      var ab := a + b;
      assert ab[0] == a[0] && ab[1..] == a[1..] + b;
      FilterValidUnfold(ab, now);
      FilterValidUnfold(a, now);
      KeptHeadConcat(a[0], FilterValid(ab, now), FilterValid(a, now), FilterValid(a[1..], now), FilterValid(b, now), IsStillValid(a[0], now));
      if |a| == 1 {
        assert a == [a[0]] && a[1..] == [];
      }
    }
  }

  /** Prepending the head's contribution to both sides keeps the concatenation. */
  lemma KeptHeadConcat<T>(m: T, ab: seq<T>, fa: seq<T>, x: seq<T>, y: seq<T>, keep: bool)
    requires ab == (if keep then [m] else []) + (x + y)
    requires fa == (if keep then [m] else []) + x
    ensures ab == fa + y
  {
  }

  lemma FilterValidUnfold(s: seq<MessageInfo>, now: int)
    requires |s| > 0
    ensures FilterValid(s, now) == (if IsStillValid(s[0], now) then [s[0]] else []) + FilterValid(s[1..], now)
  {
  }

  // ------------------------------------------------------ sendTime ordering

  predicate SortedByTime(s: seq<MessageInfo>) {
    forall i, j :: 0 <= i < j < |s| ==> s[i].sendTime <= s[j].sendTime
  }

  /** Insert `m` before the first message of `s` not sent earlier than it. */
  function InsertByTime(m: MessageInfo, s: seq<MessageInfo>): (r: seq<MessageInfo>)
    ensures multiset(r) == multiset(s) + multiset{m}
    ensures |r| == |s| + 1
    ensures r[0] == m || (|s| > 0 && r[0] == s[0])
  {
    if |s| == 0 then [m]
    else if s[0].sendTime < m.sendTime then
      assert s == [s[0]] + s[1..];
      [s[0]] + InsertByTime(m, s[1..])
    else
      [m] + s
  }

  /** Inserting into a sorted list keeps it sorted. */
  lemma {:induction false} InsertByTimeSorted(m: MessageInfo, s: seq<MessageInfo>)
    requires SortedByTime(s)
    ensures SortedByTime(InsertByTime(m, s))
  {
    if |s| > 0 && s[0].sendTime < m.sendTime {
      var rest := InsertByTime(m, s[1..]);
      InsertByTimeSorted(m, s[1..]);
      assert s[0].sendTime <= rest[0].sendTime;
      var r := [s[0]] + rest;
      forall i, j | 0 <= i < j < |r|
        ensures r[i].sendTime <= r[j].sendTime
      {
        if i == 0 {
          assert rest[0].sendTime <= rest[j - 1].sendTime;
        } else {
          assert r[i] == rest[i - 1] && r[j] == rest[j - 1];
        }
      }
    }
  }

  /** `sorted(by: { $0.sendTime < $1.sendTime })`. */
  function SortByTime(s: seq<MessageInfo>): (r: seq<MessageInfo>)
    ensures SortedByTime(r)
    ensures multiset(r) == multiset(s)
    ensures |r| == |s|
  {
    if |s| == 0 then []
    else
      assert s == [s[0]] + s[1..];
      var rest := SortByTime(s[1..]);
      InsertByTimeSorted(s[0], rest);
      InsertByTime(s[0], rest)
  }

  /** Sorting an already sorted list changes nothing. */
  lemma {:induction false} SortByTimeOfSorted(s: seq<MessageInfo>)
    requires SortedByTime(s)
    ensures SortByTime(s) == s
  {
    if |s| > 0 {
      assert SortedByTime(s[1..]);
      SortByTimeOfSorted(s[1..]);
    }
  }

  /**
   * The batch merge of `appendConvertingToMessages`: with `removeAll` the store
   * is emptied first; an empty batch then changes nothing more; otherwise the
   * kept messages are appended and the whole store is sorted by `sendTime`.
   */
  function AppendConverting(messages: seq<MessageInfo>, raw: seq<MessageInfo>, removeAll: bool, now: int): seq<MessageInfo> {
    var base := if removeAll then [] else messages;
    if |raw| == 0 then base
    else SortByTime(base + FilterValid(raw, now))
  }

  /**
   * What the batch merge promises: `removeAll` with an empty batch empties
   * the store; without `removeAll` an empty batch leaves it alone; otherwise
   * the result is sorted and holds exactly the old messages (unless removed)
   * plus the kept new ones, with no deduplication.
   */
  lemma AppendConvertingSpec(messages: seq<MessageInfo>, raw: seq<MessageInfo>, removeAll: bool, now: int)
    ensures |raw| == 0 ==> AppendConverting(messages, raw, removeAll, now) == (if removeAll then [] else messages)
    ensures |raw| > 0 ==> SortedByTime(AppendConverting(messages, raw, removeAll, now))
    ensures |raw| > 0 ==>
      multiset(AppendConverting(messages, raw, removeAll, now)) ==
      multiset(if removeAll then [] else messages) + multiset(FilterValid(raw, now))
    ensures forall x :: x in AppendConverting(messages, raw, removeAll, now) <==>
      (!removeAll && x in messages) || (x in raw && IsStillValid(x, now))
  {
    var base := if removeAll then [] else messages;
    if |raw| > 0 {
      var r := AppendConverting(messages, raw, removeAll, now);
      FilterValidCount(raw, now);
      assert multiset(r) == multiset(base) + multiset(FilterValid(raw, now));
      forall x
        ensures x in r <==> (!removeAll && x in messages) || (x in raw && IsStillValid(x, now))
      {
        calc {
          x in r;
          x in multiset(r);
          x in multiset(base) || x in multiset(FilterValid(raw, now));
          x in base || x in FilterValid(raw, now);
        }
      }
    }
  }

  /** `insertConvertingToMessages`: new messages in front, then the whole list sorted. */
  function InsertConverting(messages: seq<MessageInfo>, raw: seq<MessageInfo>): (r: seq<MessageInfo>)
    ensures SortedByTime(r)
    ensures multiset(r) == multiset(raw) + multiset(messages)
  {
    SortByTime(raw + messages)
  }

  // ------------------------------------------------------- sender rewrite

  /**
   * Every message sent by `userID` takes the new face URL and nickname; the
   * rewrite loops of `friendInfoChanged`, `myUserInfoChanged` and
   * `groupMemberInfoChanged`.
   */
  function RewriteSender(s: seq<MessageInfo>, userID: Option<string>,
                         faceURL: Option<string>, nickname: Option<string>): (r: seq<MessageInfo>)
    ensures |r| == |s|
  {
    seq(|s|, i requires 0 <= i < |s| =>
      if Some(s[i].sendID) == userID then s[i].(senderFaceUrl := faceURL, senderNickname := nickname) else s[i])
  }

  /**
   * The rewrite touches only the sender fields of that user's messages: ids,
   * order and send times stay, so a sorted store stays sorted and unique ids
   * stay unique, and every other sender's messages are unchanged.
   */
  lemma RewriteSenderPreserves(s: seq<MessageInfo>, userID: Option<string>,
                               faceURL: Option<string>, nickname: Option<string>)
    ensures forall j :: 0 <= j < |s| ==>
      RewriteSender(s, userID, faceURL, nickname)[j].clientMsgID == s[j].clientMsgID &&
      RewriteSender(s, userID, faceURL, nickname)[j].sendTime == s[j].sendTime
    ensures forall j :: 0 <= j < |s| && Some(s[j].sendID) != userID ==>
      RewriteSender(s, userID, faceURL, nickname)[j] == s[j]
    ensures forall j :: 0 <= j < |s| && Some(s[j].sendID) == userID ==>
      RewriteSender(s, userID, faceURL, nickname)[j].senderFaceUrl == faceURL &&
      RewriteSender(s, userID, faceURL, nickname)[j].senderNickname == nickname
    ensures SortedByTime(s) ==> SortedByTime(RewriteSender(s, userID, faceURL, nickname))
    ensures UniqueIds(s) ==> UniqueIds(RewriteSender(s, userID, faceURL, nickname))
  {
  }

  // ------------------------------------------------------------ selection

  /**
   * `seleteMessageHelper` on the pair (store, selection): an id already in the
   * selection is removed from it and its first stored message is unflagged;
   * otherwise the first stored message with that id is flagged and appended
   * to the selection; an unknown id changes nothing.
   */
  function ToggleSelection(messages: seq<MessageInfo>, selected: seq<MessageInfo>, id: string)
    : (seq<MessageInfo>, seq<MessageInfo>)
  {
    match FirstIndexOf(selected, id)
    case Some(k) =>
      var ms := match FirstIndexOf(messages, id)
                case Some(j) => messages[j := messages[j].(isSelected := false)]
                case None => messages;
      (ms, selected[..k] + selected[k + 1..])
    case None =>
      match FirstIndexOf(messages, id)
      case Some(j) =>
        var item := messages[j].(isSelected := true);
        (messages[j := item], selected + [item])
      case None => (messages, selected)
  }

  /**
   * The three outcomes of a toggle: a selected id leaves the selection (its
   * first entry is removed, the others keep their order) and only its first
   * stored message is unflagged; an unselected stored id joins the end of
   * the selection and only its first stored message is flagged; an unknown
   * id changes nothing.  The store keeps its ids.
   */
  lemma ToggleSelectionCases(messages: seq<MessageInfo>, selected: seq<MessageInfo>, id: string)
    ensures var (ms, sel) := ToggleSelection(messages, selected, id);
      |ms| == |messages| &&
      (forall j :: 0 <= j < |ms| ==> ms[j].clientMsgID == messages[j].clientMsgID) &&
      (HasId(selected, id) ==>
         var k := FirstIndexOf(selected, id).value;
         |sel| == |selected| - 1 && sel == selected[..k] + selected[k + 1..] &&
         (HasId(messages, id) ==>
            var j := FirstIndexOf(messages, id).value;
            !ms[j].isSelected && ms == messages[j := messages[j].(isSelected := false)]) &&
         (!HasId(messages, id) ==> ms == messages)) &&
      (!HasId(selected, id) && HasId(messages, id) ==>
         var j := FirstIndexOf(messages, id).value;
         ms == messages[j := messages[j].(isSelected := true)] && sel == selected + [ms[j]] &&
         |sel| == |selected| + 1 && sel[|selected|].clientMsgID == id && sel[|selected|].isSelected) &&
      (!HasId(selected, id) && !HasId(messages, id) ==> ms == messages && sel == selected)
  {
  }

  /** Appending a message with a fresh id puts its first occurrence at the end. */
  lemma FirstIndexOfAppendFresh(s: seq<MessageInfo>, x: MessageInfo, id: string)
    requires FirstIndexOf(s, id).None? && x.clientMsgID == id
    ensures FirstIndexOf(s + [x], id) == Some(|s|)
  {
    assert (s + [x])[|s|].clientMsgID == id;
    assert forall q :: 0 <= q < |s| ==> (s + [x])[q] == s[q];
  }

  /** The first index of an id depends on the ids alone. */
  lemma {:induction false} FirstIndexOfSameIds(s: seq<MessageInfo>, t: seq<MessageInfo>, id: string)
    requires |s| == |t|
    requires forall q :: 0 <= q < |s| ==> s[q].clientMsgID == t[q].clientMsgID
    ensures FirstIndexOf(s, id) == FirstIndexOf(t, id)
  {
    if |s| > 0 {
      FirstIndexOfSameIds(s[1..], t[1..], id);
    }
  }

  lemma MessageFlagRoundTrip(x: MessageInfo)
    requires !x.isSelected
    ensures x.(isSelected := true).(isSelected := false) == x
  {
  }

  /**
   * Toggling an unselected, unflagged message twice restores both the store
   * and the selection.
   */
  lemma ToggleTwiceRestores(messages: seq<MessageInfo>, selected: seq<MessageInfo>, id: string)
    requires !HasId(selected, id)
    requires FirstIndexOf(messages, id).Some? ==> !messages[FirstIndexOf(messages, id).value].isSelected
    ensures var once := ToggleSelection(messages, selected, id);
            ToggleSelection(once.0, once.1, id) == (messages, selected)
  {
    assert FirstIndexOf(selected, id).None?;
    match FirstIndexOf(messages, id)
    case None =>
    case Some(j) =>
      var item := messages[j].(isSelected := true);
      var ms1, sel1 := messages[j := item], selected + [item];
      assert ToggleSelection(messages, selected, id) == (ms1, sel1);
      FirstIndexOfAppendFresh(selected, item, id);
      FirstIndexOfSameIds(messages, ms1, id);
      var k := |selected|;
      assert ToggleSelection(ms1, sel1, id) == (ms1[j := ms1[j].(isSelected := false)], sel1[..k] + sel1[k + 1..]);
      assert sel1[..k] + sel1[k + 1..] == selected;
      MessageFlagRoundTrip(messages[j]);
      assert ms1[j := ms1[j].(isSelected := false)] == messages;
  }

  /** `getMessageInfo(ids:)`: the stored messages whose id is listed, in store order. */
  function MessagesWithIds(s: seq<MessageInfo>, ids: seq<string>): (r: seq<MessageInfo>)
    ensures |r| <= |s|
  {
    if |s| == 0 then []
    else
      var rest := MessagesWithIds(s[1..], ids);
      assert s == [s[0]] + s[1..];
      if s[0].clientMsgID in ids then [s[0]] + rest else rest
  }

  /**
   * The lookup keeps store order: it distributes over concatenation and
   * keeps or drops a single message by its id.
   */
  /**
   * The lookup returns exactly the stored messages whose id is asked for,
   * each as often as the store holds it.
   */
  lemma {:induction false} MessagesWithIdsCount(s: seq<MessageInfo>, ids: seq<string>)
    ensures forall x :: multiset(MessagesWithIds(s, ids))[x] == if x.clientMsgID in ids then multiset(s)[x] else 0
    ensures forall x :: x in MessagesWithIds(s, ids) <==> x in s && x.clientMsgID in ids
  {
    if |s| > 0 {
      MessagesWithIdsCount(s[1..], ids);
      MessagesWithIdsUnfold(s, ids);
      assert s == [s[0]] + s[1..];
    }
    var r := MessagesWithIds(s, ids);
    forall x
      ensures x in r <==> x in s && x.clientMsgID in ids
    {
      assert x in r <==> x in multiset(r);
      assert x in s <==> x in multiset(s);
    }
  }

  lemma {:induction false} MessagesWithIdsConcat(a: seq<MessageInfo>, b: seq<MessageInfo>, ids: seq<string>)
    ensures MessagesWithIds(a + b, ids) == MessagesWithIds(a, ids) + MessagesWithIds(b, ids)
    ensures |a| == 1 ==> MessagesWithIds(a, ids) == if a[0].clientMsgID in ids then a else []
  {
    if |a| == 0 {
      assert a + b == b;
    } else {
      MessagesWithIdsConcat(a[1..], b, ids);
      var ab := a + b;
      assert ab[0] == a[0] && ab[1..] == a[1..] + b;
      MessagesWithIdsUnfold(ab, ids);
      MessagesWithIdsUnfold(a, ids);
      KeptHeadConcat(a[0], MessagesWithIds(ab, ids), MessagesWithIds(a, ids), MessagesWithIds(a[1..], ids), MessagesWithIds(b, ids), a[0].clientMsgID in ids);
      if |a| == 1 {
        assert a == [a[0]] && a[1..] == [];
      }
    }
  }

  lemma MessagesWithIdsUnfold(s: seq<MessageInfo>, ids: seq<string>)
    requires |s| > 0
    ensures MessagesWithIds(s, ids) == (if s[0].clientMsgID in ids then [s[0]] else []) + MessagesWithIds(s[1..], ids)
  {
  }

  // ------------------------------------------------------------ conversion

  /** `configStatus`: failure and sending map across; anything else is sent with its read state. */
  function ConfigStatus(msg: MessageInfo): (r: MessageStatus)
    ensures msg.status == StatusSendFailure <==> r == SentFailure
    ensures msg.status == StatusSending <==> r == Sending
    ensures r.Sent? <==> msg.status != StatusSendFailure && msg.status != StatusSending
    ensures r.Sent? && msg.sessionType == C2C ==> r.info.readedStatus == SignalReaded(msg.isRead)
    ensures r.Sent? && msg.sessionType != C2C ==> r.info.readedStatus == GroupReaded(msg.isRead, msg.isRead)
  {
    if msg.status == StatusSendFailure then SentFailure
    else if msg.status == StatusSending then Sending
    else Sent(AttachInfo(if msg.sessionType == C2C then SignalReaded(msg.isRead) else GroupReaded(msg.isRead, msg.isRead), ""))
  }

  predicate IsFriendshipNotice(e: ContentElem) {
    e.CustomElem? && (e.customType == Some(CUSTOM_DELETED_BY_FRIEND) || e.customType == Some(CUSTOM_BLOCKED_BY_FRIEND))
  }

  /**
   * `convert`: the displayed payload of a stored message.  A message without
   * a `serverMsgID` is still being sent and shows its local file; `isCached`
   * stands for the image cache lookup.
   */
  function ConvertData(msg: MessageInfo, isCached: string -> bool): MessageData {
    var isSending := msg.serverMsgID.None?;
    match msg.elem
    case TextElem(content) => Text(TextMessageSource(content, PlainText))
    case PictureElem(sourcePath, thumbnailUrl, sourceUrl, width, height) =>
      var thumbURL := if isSending then sourcePath else thumbnailUrl;
      var url := if isSending then sourcePath else sourceUrl;
      var size := Size(width, height);
      var source := MediaMessageSource(MediaInfo(Some(url), None, size), Some(MediaInfo(Some(thumbURL), None, size)), None, None, None);
      Image(source, isCached(thumbURL))
    case CustomElem(customType, data, detail) =>
      if IsFriendshipNotice(msg.elem) then AttributeText(detail)
      else Custom(CustomMessageSource(data, customType, Some(detail)))
    case OtherElem(_, notification) => AttributeText(notification.GetOr(""))
  }

  /** `convertMessage`: a stored message as the chat screen shows it. */
  function ConvertMessage(msg: MessageInfo, isCached: string -> bool): (m: Message)
    ensures m.id == msg.clientMsgID && m.date == msg.sendTime
    ensures m.contentType == System <==> ContentTypeOf(msg.elem) > FACE_CONTENT || IsFriendshipNotice(msg.elem)
    ensures m.contentType != Date
    ensures m.kind == Incoming <==> !msg.isOutgoing
    ensures m.owner == User(msg.sendID, msg.senderNickname.GetOr(""), msg.senderFaceUrl)
    ensures m.isSelected == msg.isSelected && m.isAnchor == msg.isAnchor
    ensures m.status == ConfigStatus(msg)
  {
    var contentType := if ContentTypeOf(msg.elem) > FACE_CONTENT || IsFriendshipNotice(msg.elem) then System else Normal;
    var sessionType := if msg.sessionType == SuperGroup then Group
                       else if msg.sessionType == Notification then OaNotice
                       else Single;
    Message(msg.clientMsgID, msg.sendTime, contentType, sessionType, ConvertData(msg, isCached),
            User(msg.sendID, msg.senderNickname.GetOr(""), msg.senderFaceUrl),
            if msg.isOutgoing then Outgoing else Incoming,
            ConfigStatus(msg), msg.isSelected, msg.isAnchor)
  }

  function ConvertAll(s: seq<MessageInfo>, isCached: string -> bool): (r: seq<Message>)
    ensures |r| == |s|
    ensures forall i :: 0 <= i < |s| ==> r[i] == ConvertMessage(s[i], isCached)
  {
    seq(|s|, i requires 0 <= i < |s| => ConvertMessage(s[i], isCached))
  }

  // ---------------------------------------------------------- row builder

  function Last<T>(s: seq<T>): T
    requires |s| > 0
  {
    s[|s| - 1]
  }

  /** One step of the `reduce(into:)` of `groupMessagesByDay`. */
  function AddToGroups(groups: seq<seq<Message>>, m: Message, sameHour: (int, int) -> bool): seq<seq<Message>> {
    if |groups| == 0 || |Last(groups)| == 0 then groups + [[m]]
    else if sameHour(Last(Last(groups)).date, m.date) then groups[..|groups| - 1] + [Last(groups) + [m]]
    else groups + [[m]]
  }

  function Flatten<T>(groups: seq<seq<T>>): seq<T> {
    if |groups| == 0 then [] else Flatten(groups[..|groups| - 1]) + Last(groups)
  }

  /**
   * `groupMessagesByDay`: consecutive messages in same-hour runs, `sameHour`
   * standing for `Calendar.isDate(_:equalTo:toGranularity: .hour)`.  No run is
   * empty, and there is at least one run when there is a message.
   */
  function GroupByHour(ms: seq<Message>, sameHour: (int, int) -> bool): (g: seq<seq<Message>>)
    ensures forall k :: 0 <= k < |g| ==> |g[k]| > 0
    ensures |g| <= |ms|
    ensures |ms| > 0 ==> |g| > 0
  {
    if |ms| == 0 then []
    else AddToGroups(GroupByHour(ms[..|ms| - 1], sameHour), Last(ms), sameHour)
  }

  /** The runs concatenate back to the messages, in order. */
  lemma {:induction false} GroupByHourFlattens(ms: seq<Message>, sameHour: (int, int) -> bool)
    ensures Flatten(GroupByHour(ms, sameHour)) == ms
  {
    if |ms| > 0 {
      var init := ms[..|ms| - 1];
      GroupByHourFlattens(init, sameHour);
      AddToGroupsFlattens(GroupByHour(init, sameHour), Last(ms), sameHour);
      assert ms == init + [Last(ms)];
    }
  }

  /** Adding a message to the runs adds it at the end of their concatenation. */
  lemma AddToGroupsFlattens(prev: seq<seq<Message>>, m: Message, sameHour: (int, int) -> bool)
    ensures Flatten(AddToGroups(prev, m, sameHour)) == Flatten(prev) + [m]
  {
    var g := AddToGroups(prev, m, sameHour);
    if |prev| > 0 && |Last(prev)| > 0 && sameHour(Last(Last(prev)).date, m.date) {
      var front := prev[..|prev| - 1];
      assert g == front + [Last(prev) + [m]];
      assert g[..|g| - 1] == front;
      assert Flatten(g) == Flatten(front) + (Last(prev) + [m]);
      assert Flatten(prev) == Flatten(front) + Last(prev);
    } else {
      assert g == prev + [[m]];
      assert g[..|g| - 1] == prev;
    }
  }

  /** Neighbours inside a run are in the same hour. */
  predicate RunsShareHour(g: seq<seq<Message>>, sameHour: (int, int) -> bool) {
    forall k, i :: 0 <= k < |g| && 0 < i < |g[k]| ==> sameHour(g[k][i - 1].date, g[k][i].date)
  }

  /** The last message of a run and the first of the next are not in the same hour. */
  predicate BoundariesSplitHour(g: seq<seq<Message>>, sameHour: (int, int) -> bool)
    requires forall k :: 0 <= k < |g| ==> |g[k]| > 0
  {
    forall k :: 0 < k < |g| ==> !sameHour(Last(g[k - 1]).date, g[k][0].date)
  }

  /**
   * Neighbours inside a run are in the same hour, and the last message of a
   * run and the first of the next are not.
   */
  lemma {:induction false} GroupByHourRuns(ms: seq<Message>, sameHour: (int, int) -> bool)
    ensures RunsShareHour(GroupByHour(ms, sameHour), sameHour)
    ensures BoundariesSplitHour(GroupByHour(ms, sameHour), sameHour)
  {
    if |ms| > 0 {
      var init := ms[..|ms| - 1];
      var prev := GroupByHour(init, sameHour);
      var m := Last(ms);
      GroupByHourRuns(init, sameHour);
      var n := |prev|;
      if n > 0 && sameHour(Last(Last(prev)).date, m.date) {
        MergeKeepsRuns(prev, m, sameHour);
      } else {
        NewRunKeepsRuns(prev, m, sameHour);
      }
    }
  }

  /** Extending the last run with a message of the same hour keeps both run properties. */
  lemma MergeKeepsRuns(prev: seq<seq<Message>>, m: Message, sameHour: (int, int) -> bool)
    requires forall k :: 0 <= k < |prev| ==> |prev[k]| > 0
    requires |prev| > 0 && sameHour(Last(Last(prev)).date, m.date)
    requires RunsShareHour(prev, sameHour) && BoundariesSplitHour(prev, sameHour)
    ensures var g := prev[..|prev| - 1] + [Last(prev) + [m]];
      (forall k :: 0 <= k < |g| ==> |g[k]| > 0) &&
      RunsShareHour(g, sameHour) && BoundariesSplitHour(g, sameHour)
  {
    var n := |prev|;
    var g: seq<seq<Message>> := prev[..n - 1] + [Last(prev) + [m]];
    forall k: int, i: int | 0 <= k < |g| && 0 < i < |g[k]|
      ensures sameHour(g[k][i - 1].date, g[k][i].date)
    {
      if k < n - 1 {
        assert g[k] == prev[k];
      } else if i < |prev[n - 1]| {
        assert g[k][i - 1] == prev[n - 1][i - 1] && g[k][i] == prev[n - 1][i];
      } else {
        assert g[k][i - 1] == Last(prev[n - 1]) && g[k][i] == m;
      }
    }
    forall k: int | 0 < k < |g|
      ensures !sameHour(Last(g[k - 1]).date, g[k][0].date)
    {
      assert g[k - 1] == prev[k - 1];
      assert g[k][0] == prev[k][0];
    }
  }

  /** Starting a new run with a message of another hour keeps both run properties. */
  lemma NewRunKeepsRuns(prev: seq<seq<Message>>, m: Message, sameHour: (int, int) -> bool)
    requires forall k :: 0 <= k < |prev| ==> |prev[k]| > 0
    requires |prev| > 0 ==> !sameHour(Last(Last(prev)).date, m.date)
    requires RunsShareHour(prev, sameHour) && BoundariesSplitHour(prev, sameHour)
    ensures var g := prev + [[m]];
      (forall k :: 0 <= k < |g| ==> |g[k]| > 0) &&
      RunsShareHour(g, sameHour) && BoundariesSplitHour(g, sameHour)
  {
    var n := |prev|;
    var g: seq<seq<Message>> := prev + [[m]];
    forall k: int, i: int | 0 <= k < |g| && 0 < i < |g[k]|
      ensures sameHour(g[k][i - 1].date, g[k][i].date)
    {
      assert k < n;
      assert g[k] == prev[k];
    }
    forall k: int | 0 < k < |g|
      ensures !sameHour(Last(g[k - 1]).date, g[k][0].date)
    {
      assert g[k - 1] == prev[k - 1];
      if k < n {
        assert g[k] == prev[k];
      }
    }
  }

  /** The cell of one message: a system row for system text, else a normal bubble. */
  function MessageRow(m: Message): (c: Cell)
    ensures c.SystemMessageCell? <==> m.contentType == System && m.data.AttributeText?
    ensures c.SystemMessageCell? ==> c.systemGroup == SystemGroup(m.id, m.data.value)
    ensures !c.SystemMessageCell? ==> c == MessageCell(m, NormalBubble)
  {
    if m.contentType == System && m.data.AttributeText? then SystemMessageCell(SystemGroup(m.id, m.data.value))
    else MessageCell(m, NormalBubble)
  }

  function MessageRows(g: seq<Message>): (r: seq<Cell>)
    ensures |r| == |g|
    ensures forall i :: 0 <= i < |g| ==> r[i] == MessageRow(g[i])
  {
    seq(|g|, i requires 0 <= i < |g| => MessageRow(g[i]))
  }

  /** The cells of one run: a date cell for its first message, then its messages. */
  function GroupCells(g: seq<Message>): seq<Cell> {
    (if |g| > 0 then [DateCell(DateGroup(g[0].id, g[0].date))] else []) + MessageRows(g)
  }

  /** `createCellsFromGroupedMessages`. */
  function CellsOf(groups: seq<seq<Message>>): seq<Cell> {
    if |groups| == 0 then [] else CellsOf(groups[..|groups| - 1]) + GroupCells(Last(groups))
  }

  /** Drop the date cells of a row list. */
  function WithoutDates(cs: seq<Cell>): seq<Cell> {
    if |cs| == 0 then [] else WithoutDates(cs[..|cs| - 1]) + (if Last(cs).DateCell? then [] else [Last(cs)])
  }

  function CountDates(cs: seq<Cell>): nat {
    if |cs| == 0 then 0 else CountDates(cs[..|cs| - 1]) + (if Last(cs).DateCell? then 1 else 0)
  }

  lemma {:induction false} WithoutDatesAppend(a: seq<Cell>, b: seq<Cell>)
    ensures WithoutDates(a + b) == WithoutDates(a) + WithoutDates(b)
    ensures CountDates(a + b) == CountDates(a) + CountDates(b)
  {
    if |b| > 0 {
      assert (a + b)[..|a + b| - 1] == a + b[..|b| - 1];
      WithoutDatesAppend(a, b[..|b| - 1]);
    } else {
      assert a + b == a;
    }
  }

  lemma MessageRowsHaveNoDates(g: seq<Message>)
    ensures WithoutDates(MessageRows(g)) == MessageRows(g)
    ensures CountDates(MessageRows(g)) == 0
  {
    var rows := MessageRows(g);
    forall i | 0 <= i < |rows|
      ensures !rows[i].DateCell?
    {
      assert rows[i] == MessageRow(g[i]);
    }
    NoDatesKept(rows);
  }

  /** A row list without date cells is kept whole and counts no dates. */
  lemma {:induction false} NoDatesKept(cs: seq<Cell>)
    requires forall i :: 0 <= i < |cs| ==> !cs[i].DateCell?
    ensures WithoutDates(cs) == cs && CountDates(cs) == 0
  {
    if |cs| > 0 {
      var init := cs[..|cs| - 1];
      var last := cs[|cs| - 1];
      assert forall i :: 0 <= i < |init| ==> init[i] == cs[i];
      NoDatesKept(init);
      assert !last.DateCell?;
      assert WithoutDates(cs) == WithoutDates(init) + [last];
      assert CountDates(cs) == CountDates(init);
      assert init + [last] == cs;
    }
  }

  lemma {:induction false} MessageRowsAppend(a: seq<Message>, b: seq<Message>)
    ensures MessageRows(a + b) == MessageRows(a) + MessageRows(b)
  {
  }

  /**
   * The rows of non-empty runs are one date cell per run plus, once the date
   * cells are dropped, exactly one row per message in order; so there are
   * as many cells as messages plus runs.
   */
  lemma {:induction false} CellsOfShape(groups: seq<seq<Message>>)
    requires forall k :: 0 <= k < |groups| ==> |groups[k]| > 0
    ensures WithoutDates(CellsOf(groups)) == MessageRows(Flatten(groups))
    ensures CountDates(CellsOf(groups)) == |groups|
    ensures |CellsOf(groups)| == |Flatten(groups)| + |groups|
  {
    if |groups| > 0 {
      var init := groups[..|groups| - 1];
      var g := Last(groups);
      CellsOfShape(init);
      assert CellsOf(groups) == CellsOf(init) + GroupCells(g);
      assert Flatten(groups) == Flatten(init) + g;
      GroupCellsShape(g);
      WithoutDatesAppend(CellsOf(init), GroupCells(g));
      MessageRowsAppend(Flatten(init), g);
    }
  }

  /** One run's cells: a single date row, then the message rows. */
  lemma GroupCellsShape(g: seq<Message>)
    requires |g| > 0
    ensures WithoutDates(GroupCells(g)) == MessageRows(g)
    ensures CountDates(GroupCells(g)) == 1
    ensures |GroupCells(g)| == |g| + 1
  {
    var date := [DateCell(DateGroup(g[0].id, g[0].date))];
    assert GroupCells(g) == date + MessageRows(g);
    WithoutDatesAppend(date, MessageRows(g));
    MessageRowsHaveNoDates(g);
    LoneDateRow(date[0]);
  }

  lemma LoneDateRow(c: Cell)
    requires c.DateCell?
    ensures WithoutDates([c]) == [] && CountDates([c]) == 1
  {
    assert [c][..0] == [];
  }

  /** `propagateLatestMessages`: one section, id 0, empty title, all rows. */
  function LatestSections(messages: seq<MessageInfo>, sameHour: (int, int) -> bool, isCached: string -> bool): seq<Section> {
    [Section(0, "", CellsOf(GroupByHour(ConvertAll(messages, isCached), sameHour)))]
  }

  /**
   * The snapshot of a store is a single section with id 0 whose rows are
   * one date row per same-hour run and, in store order, one row per message
   * (a system row exactly for system text); each run is its first message's
   * date row followed by its message rows.
   */
  lemma LatestSectionsShape(messages: seq<MessageInfo>, sameHour: (int, int) -> bool, isCached: string -> bool)
    ensures var r := LatestSections(messages, sameHour, isCached);
      |r| == 1 && r[0].id == 0 && r[0].title == "" &&
      WithoutDates(r[0].cells) == MessageRows(ConvertAll(messages, isCached)) &&
      CountDates(r[0].cells) == |GroupByHour(ConvertAll(messages, isCached), sameHour)| &&
      |r[0].cells| == |messages| + |GroupByHour(ConvertAll(messages, isCached), sameHour)|
    ensures var r := LatestSections(messages, sameHour, isCached);
      var runs := GroupByHour(ConvertAll(messages, isCached), sameHour);
      forall k: nat :: k < |runs| ==> RunPlaced(r[0].cells, runs, k)
  {
    var ms := ConvertAll(messages, isCached);
    var runs := GroupByHour(ms, sameHour);
    CellsOfShape(runs);
    GroupByHourFlattens(ms, sameHour);
    forall k: nat | k < |runs|
      ensures RunPlaced(CellsOf(runs), runs, k)
    {
      RunCellsAt(runs, k);
    }
  }

  /**
   * Where each run sits: run `k` starts after the rows of the runs before it
   * (their messages plus one date row each), with the date row of its first
   * message followed by its own message rows.
   */
  predicate RunPlaced(cells: seq<Cell>, groups: seq<seq<Message>>, k: nat)
    requires k < |groups|
  {
    var at := |Flatten(groups[..k])| + k;
    |groups[k]| > 0 && at + |groups[k]| < |cells| &&
    cells[at] == DateCell(DateGroup(groups[k][0].id, groups[k][0].date)) &&
    cells[at + 1..at + 1 + |groups[k]|] == MessageRows(groups[k])
  }

  lemma {:induction false} RunCellsAt(groups: seq<seq<Message>>, k: nat)
    requires forall j :: 0 <= j < |groups| ==> |groups[j]| > 0
    requires k < |groups|
    ensures RunPlaced(CellsOf(groups), groups, k)
  {
    if k == |groups| - 1 {
      LastRunCells(groups);
    } else {
      RunCellsAt(groups[..|groups| - 1], k);
      EarlierRunCells(groups, k);
    }
  }

  lemma LastRunCells(groups: seq<seq<Message>>)
    requires forall j :: 0 <= j < |groups| ==> |groups[j]| > 0
    requires |groups| > 0
    ensures RunPlaced(CellsOf(groups), groups, |groups| - 1)
  {
    var init := groups[..|groups| - 1];
    assert init == groups[..|groups| - 1];
    CellsOfShape(init);
    RunAfter(CellsOf(init), Last(groups));
  }

  /** The rows of a run appended after `cells` start right after them. */
  lemma RunAfter(cells: seq<Cell>, g: seq<Message>)
    requires |g| > 0
    ensures var all := cells + GroupCells(g);
      |cells| + |g| < |all| &&
      all[|cells|] == DateCell(DateGroup(g[0].id, g[0].date)) &&
      all[|cells| + 1..|cells| + 1 + |g|] == MessageRows(g)
  {
    var date := [DateCell(DateGroup(g[0].id, g[0].date))];
    assert cells + GroupCells(g) == (cells + date) + MessageRows(g);
  }

  lemma EarlierRunCells(groups: seq<seq<Message>>, k: nat)
    requires k < |groups| - 1
    requires RunPlaced(CellsOf(groups[..|groups| - 1]), groups[..|groups| - 1], k)
    ensures RunPlaced(CellsOf(groups), groups, k)
  {
    var init := groups[..|groups| - 1];
    PrefixKeepsRun(CellsOf(init), GroupCells(Last(groups)), init, groups, k);
  }

  /** Rows appended after a placed run leave it where it is. */
  lemma PrefixKeepsRun(cells: seq<Cell>, tail: seq<Cell>, init: seq<seq<Message>>, groups: seq<seq<Message>>, k: nat)
    requires k < |init| <= |groups| && init == groups[..|init|]
    requires RunPlaced(cells, init, k)
    ensures RunPlaced(cells + tail, groups, k)
  {
    assert init[..k] == groups[..k] && init[k] == groups[k];
    var at := |Flatten(groups[..k])| + k;
    assert (cells + tail)[at + 1..at + 1 + |groups[k]|] == cells[at + 1..at + 1 + |groups[k]|];
  }

  /** The first row of a non-empty store is the date row of its first message. */
  lemma {:induction false} FirstCellIsDate(groups: seq<seq<Message>>)
    requires |groups| > 0 && |groups[0]| > 0
    ensures |CellsOf(groups)| > 0
    ensures CellsOf(groups)[0] == DateCell(DateGroup(groups[0][0].id, groups[0][0].date))
  {
    if |groups| > 1 {
      FirstCellIsDate(groups[..|groups| - 1]);
    }
  }
}
