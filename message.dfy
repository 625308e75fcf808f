/**
 * The chat screen's value types: the message shown in a cell, its status and
 * payload, the date / system / sender-group rows, and the row (`Cell`) and
 * `Section` containers the collection view is fed with.
 *
 * Dates are integer milliseconds since 1970.  Attributed strings are modelled
 * by their plain text, URLs by their absolute string.
 */
module ChatMessage {
  import opened Opt

  // ---------------------------------------------------------------- enums

  datatype MessageType = Incoming | Outgoing

  /** `MessageType.isIncoming`. */
  predicate IsIncoming(t: MessageType) {
    t == Incoming
  }

  /** ChatLayout's item alignment. */
  datatype ChatItemAlignment = Leading | Trailing | Center | FullWidth

  /** `ChatItemAlignment.isIncoming`: only a leading item is an incoming one. */
  predicate AlignmentIsIncoming(a: ChatItemAlignment) {
    a == Leading
  }

  /** How a message type is laid out when it heads a sender group. */
  function GroupAlignment(t: MessageType): ChatItemAlignment {
    if IsIncoming(t) then Leading else Trailing
  }

  /**
   * The two `isIncoming` properties agree: a sender group is laid out as
   * incoming exactly when its message type is incoming, so mapping a type to
   * an alignment and reading `isIncoming` back gives the type's own answer.
   */
  lemma GroupAlignmentRoundTrip(t: MessageType)
    ensures AlignmentIsIncoming(GroupAlignment(t)) <==> t == Incoming
    ensures (if AlignmentIsIncoming(GroupAlignment(t)) then Incoming else Outgoing) == t
  {
  }

  datatype ReadedStatus = SignalReaded(readed: bool) | GroupReaded(readed: bool, allReaded: bool)

  datatype AttachInfo = AttachInfo(readedStatus: ReadedStatus, text: string)

  datatype MessageStatus = SentFailure | Sending | Sent(info: AttachInfo) | Received

  datatype MessageRawType = Normal | System | Date

  datatype MessageSessionRawType = Single | Group | OaNotice

  datatype TextMessageType = PlainText | Notice

  // ------------------------------------------------------------ payloads

  datatype TextMessageSource = TextMessageSource(text: string, kind: TextMessageType)

  /** A width/height pair in points (only the default matters here). */
  datatype Size = Size(width: int, height: int)

  const DefaultMediaSize := Size(120, 120)

  /** `MediaMessageSource.Info`. */
  datatype MediaInfo = MediaInfo(url: Option<string>, relativePath: Option<string>, size: Size)

  /** `MediaMessageSource.Info ==`: only the url and the relative path are compared. */
  predicate InfoEq(a: MediaInfo, b: MediaInfo) {
    a.url == b.url && a.relativePath == b.relativePath
  }

  /** `MediaMessageSource.Info.hash(into:)`: the hasher is fed the url and the relative path. */
  function InfoHash(a: MediaInfo, hasher: (Option<string>, Option<string>) -> int): int {
    hasher(a.url, a.relativePath)
  }

  /**
   * `InfoEq` is an equivalence that ignores the size, and the hash agrees
   * with it, as `Hashable` requires.
   */
  lemma InfoEqIsHashableEquality(a: MediaInfo, b: MediaInfo, c: MediaInfo, s: Size,
                                 hasher: (Option<string>, Option<string>) -> int)
    ensures InfoEq(a, a)
    ensures InfoEq(a, b) ==> InfoEq(b, a)
    ensures InfoEq(a, b) && InfoEq(b, c) ==> InfoEq(a, c)
    ensures InfoEq(a, a.(size := s))
    ensures InfoEq(a, b) ==> InfoHash(a, hasher) == InfoHash(b, hasher)
  {
  }

  predicate OptInfoEq(a: Option<MediaInfo>, b: Option<MediaInfo>) {
    match a
    case None => b.None?
    case Some(x) => b.Some? && InfoEq(x, b.value)
  }

  /** `MediaMessageSource` (the decoded `image` it may carry is not modelled). */
  datatype MediaMessageSource = MediaMessageSource(
    source: MediaInfo,
    thumb: Option<MediaInfo>,
    duration: Option<int>,
    fileSize: Option<int>,
    isFace: Option<bool>)

  /** The synthesized `==` of `MediaMessageSource`, which uses `InfoEq` for its infos. */
  predicate MediaEq(a: MediaMessageSource, b: MediaMessageSource) {
    InfoEq(a.source, b.source) && OptInfoEq(a.thumb, b.thumb) &&
    a.duration == b.duration && a.fileSize == b.fileSize && a.isFace == b.isFace
  }

  /** `CustomMessageSource.CustomMessageType` raw values. */
  const CUSTOM_CALL := 901
  const CUSTOM_EMOJI := 902
  const CUSTOM_TAG_MESSAGE := 903
  const CUSTOM_MOMENTS := 904
  const CUSTOM_MEETING := 905
  const CUSTOM_BLOCKED_BY_FRIEND := 910
  const CUSTOM_DELETED_BY_FRIEND := 911

  /**
   * `CustomMessageSource`: the JSON `data` and its detail text.  `customType`
   * is the `customType` number the JSON carries (parsing is not modelled).
   */
  datatype CustomMessageSource = CustomMessageSource(
    data: Option<string>,
    customType: Option<int>,
    attributedString: Option<string>)

  /** `Message.Data`. */
  datatype MessageData =
    | Text(source: TextMessageSource)
    | AttributeText(value: string)
    | Url(url: string, isLocallyStored: bool)
    | Image(media: MediaMessageSource, isLocallyStored: bool)
    | Custom(custom: CustomMessageSource)
    | NoContent

  /** The synthesized `==` of `Message.Data`: structural, with `MediaEq` on images. */
  predicate DataEq(a: MessageData, b: MessageData) {
    match a
    case Image(m, l) => b.Image? && MediaEq(m, b.media) && l == b.isLocallyStored
    case _ => a == b
  }

  datatype User = User(id: string, name: string, faceURL: Option<string>)

  datatype Message = Message(
    id: string,
    date: int,
    contentType: MessageRawType,
    sessionType: MessageSessionRawType,
    data: MessageData,
    owner: User,
    kind: MessageType,
    status: MessageStatus,
    isSelected: bool,
    isAnchor: bool)

  /** The memberwise initialiser with the declared defaults for the last three fields. */
  function NewMessage(id: string, date: int, contentType: MessageRawType,
                      sessionType: MessageSessionRawType, data: MessageData,
                      owner: User, kind: MessageType): (m: Message)
    ensures m.status == Sending && !m.isSelected && !m.isAnchor
    ensures m.id == id && m.date == date && m.data == data && m.owner == owner && m.kind == kind
  {
    Message(id, date, contentType, sessionType, data, owner, kind, Sending, false, false)
  }

  // ------------------------------------------------ Differentiable conformances

  /** `Message.isContentEqual`: the synthesized `==`, which compares media infos by `InfoEq`. */
  predicate MessageContentEqual(a: Message, b: Message) {
    a.(data := NoContent) == b.(data := NoContent) && DataEq(a.data, b.data)
  }

  /** `differenceIdentifier` of every row value is the hash of its `id`. */
  function MessageIdentifier(m: Message, hash: string -> int): int {
    hash(m.id)
  }

  /**
   * Content equality of messages is an equivalence that contains `==`, and
   * content-equal messages have the same difference identifier, so the diff
   * never reports an update for a row it considers unchanged.
   */
  lemma MessageContentEqualIsEquivalence(a: Message, b: Message, c: Message, hash: string -> int)
    ensures MessageContentEqual(a, a)
    ensures MessageContentEqual(a, b) ==> MessageContentEqual(b, a)
    ensures MessageContentEqual(a, b) && MessageContentEqual(b, c) ==> MessageContentEqual(a, c)
    ensures MessageContentEqual(a, b) ==> MessageIdentifier(a, hash) == MessageIdentifier(b, hash)
  {
    if MessageContentEqual(a, b) && MessageContentEqual(b, c) && a.data.Image? {
      assert InfoEq(a.data.media.source, c.data.media.source);
    }
  }

  /**
   * Content equality is not full structural equality: two image messages
   * whose media differ only in their size are content-equal.
   */
  lemma ContentEqualIgnoresMediaSize(m: Message, s: Size)
    requires m.data.Image?
    ensures MessageContentEqual(m, m.(data := m.data.(media := m.data.media.(source := m.data.media.source.(size := s)))))
    ensures s != m.data.media.source.size ==>
      m != m.(data := m.data.(media := m.data.media.(source := m.data.media.source.(size := s))))
  {
    var t := m.data.media.thumb;
    assert OptInfoEq(t, t);
  }

  datatype DateGroup = DateGroup(id: string, date: int)

  datatype SystemGroup = SystemGroup(id: string, value: string)

  datatype MessageGroup = MessageGroup(id: string, title: string, kind: MessageType)

  function DateGroupIdentifier(g: DateGroup, hash: string -> int): int { hash(g.id) }

  function SystemGroupIdentifier(g: SystemGroup, hash: string -> int): int { hash(g.id) }

  function MessageGroupIdentifier(g: MessageGroup, hash: string -> int): int { hash(g.id) }

  /** The identifiers of the row values depend on the id alone. */
  lemma IdentifiersDependOnlyOnId(hash: string -> int, d1: DateGroup, d2: DateGroup,
                                  s1: SystemGroup, s2: SystemGroup,
                                  g1: MessageGroup, g2: MessageGroup, m1: Message, m2: Message)
    ensures d1.id == d2.id ==> DateGroupIdentifier(d1, hash) == DateGroupIdentifier(d2, hash)
    ensures s1.id == s2.id ==> SystemGroupIdentifier(s1, hash) == SystemGroupIdentifier(s2, hash)
    ensures g1.id == g2.id ==> MessageGroupIdentifier(g1, hash) == MessageGroupIdentifier(g2, hash)
    ensures m1.id == m2.id ==> MessageIdentifier(m1, hash) == MessageIdentifier(m2, hash)
  {
  }

  // --------------------------------------------------------------- summary

  const NOTICE_TAG := "[公告]"
  const LINK_TAG := "[链接]"
  const IMAGE_TAG := "[图片]"

  /** `Message.getSummary()`: the one-line preview of a message, if it has one. */
  function GetSummary(m: Message): (r: Option<string>)
    ensures r.None? <==> m.data.Custom? || m.data.NoContent?
    ensures m.data.Text? && m.data.source.kind == Notice ==> r == Some(NOTICE_TAG)
    ensures m.data.Text? && m.data.source.kind != Notice ==> r == Some(m.data.source.text)
    ensures m.data.AttributeText? ==> r == Some(m.data.value)
    ensures m.data.Url? ==> r == Some(LINK_TAG)
    ensures m.data.Image? ==> r == Some(IMAGE_TAG)
  {
    match m.data
    case Text(source) => Some(if source.kind == Notice then NOTICE_TAG else source.text)
    case AttributeText(value) => Some(value)
    case Url(_, _) => Some(LINK_TAG)
    case Image(_, _) => Some(IMAGE_TAG)
    case _ => None
  }

  // ------------------------------------------------------ rows and sections

  datatype BubbleType = NormalBubble | TailedBubble

  /** One row of the chat collection view. */
  datatype Cell =
    | DateCell(dateGroup: DateGroup)
    | SystemMessageCell(systemGroup: SystemGroup)
    | MessageGroupCell(messageGroup: MessageGroup)
    | MessageCell(message: Message, bubbleType: BubbleType)
    | TypingIndicator

  datatype Section = Section(id: int, title: string, cells: seq<Cell>)
}
