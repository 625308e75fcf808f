/**
 * The chat collection view's data source: the current and previous section
 * snapshots, the section and item counts, the layout alignment of every
 * item, which kind of cell each row is built as, the tap rule and the
 * sending indicator.
 *
 * UIKit views are modelled by the kind of cell that is built and the
 * fields of the message that configure it.
 */
module ChatDataSource {
  import opened Opt
  import opened ChatMessage

  /** ChatLayout's `ItemKind`. */
  datatype ItemKind = HeaderItem | CellItem | FooterItem

  /** The cell `cellForItemAt` builds for a row. */
  datatype CellView =
    | DateTitleView(date: int)
    | SystemTitleView(value: string)
    | GroupTitleView(title: string)
    | TextCellView(messageID: string, isSelected: bool, enableSelected: bool)
    | NoticeCellView(messageID: string, isSelected: bool, enableSelected: bool)
    | CustomCellView(messageID: string, blank: bool, isSelected: bool, enableSelected: bool)
    | ImageCellView(messageID: string, isSelected: bool, enableSelected: bool)
    | TypingIndicatorView
    | FatalError  // `fatalError()`: a url or empty message has no cell

  /** What a tap on message content leads to. */
  datatype TapEffect = SelectItem | TapContent | NoTapEffect

  /** The status indicator (spinner) of a message cell is shown only while sending. */
  predicate ShowsStatusIndicator(status: MessageStatus) {
    match status
    case SentFailure => false
    case Sending => true
    case Received => false
    case Sent(_) => false
  }

  lemma StatusIndicatorOnlyWhileSending(status: MessageStatus)
    ensures ShowsStatusIndicator(status) <==> status == Sending
  {
  }

  /** A custom message is laid out blank when its custom type is a meeting. */
  predicate IsMeeting(c: CustomMessageSource) {
    c.customType == Some(CUSTOM_MEETING)
  }

  /** `cellForItemAt` for one row. */
  function CellViewFor(cell: Cell): (v: CellView)
    ensures cell.MessageCell? && cell.message.data.Text? ==>
      (v.TextCellView? <==> cell.message.data.source.kind == PlainText) &&
      (v.NoticeCellView? <==> cell.message.data.source.kind != PlainText)
    ensures v.NoticeCellView? ==> !v.isSelected
    ensures v.FatalError? <==> cell.MessageCell? && (cell.message.data.Url? || cell.message.data.NoContent?)
    ensures v.ImageCellView? <==> cell.MessageCell? && cell.message.data.Image?
    ensures (v.TextCellView? || v.ImageCellView? || v.CustomCellView?) ==>
      cell.MessageCell? && v.messageID == cell.message.id && v.isSelected == cell.message.isSelected
    // `enableSelected` defaults to false and no call passes true
    ensures (v.TextCellView? || v.NoticeCellView? || v.ImageCellView? || v.CustomCellView?) ==> !v.enableSelected
  {
    match cell
    case DateCell(g) => DateTitleView(g.date)
    case SystemMessageCell(g) => SystemTitleView(g.value)
    case MessageGroupCell(g) => GroupTitleView(g.title)
    case TypingIndicator => TypingIndicatorView
    case MessageCell(m, _) =>
      match m.data
      case Text(source) =>
        if source.kind == PlainText then TextCellView(m.id, m.isSelected, false)
        else NoticeCellView(m.id, false, false)
      case AttributeText(_) => TextCellView(m.id, m.isSelected, false)
      case Custom(source) => CustomCellView(m.id, IsMeeting(source), m.isSelected, false)
      case Image(_, _) => ImageCellView(m.id, m.isSelected, false)
      case _ => FatalError
  }

  /** `onTapMessage`: the value returned and the effect. */
  function OnTapMessage(isEditing: bool, hasIndexPath: bool, data: MessageData, useIndexPath: bool): (r: (bool, TapEffect))
    ensures !r.0 <==> isEditing && hasIndexPath
    ensures r.1 == SelectItem <==> hasIndexPath && (isEditing || data.NoContent?)
    ensures r.1 == NoTapEffect <==> !isEditing && !data.NoContent? && useIndexPath && hasIndexPath
  {
    if isEditing && hasIndexPath then (false, SelectItem)
    else if data.NoContent? && hasIndexPath then (true, SelectItem)
    else if useIndexPath && hasIndexPath then (true, NoTapEffect)
    else (true, TapContent)
  }

  /** ChatLayout asks whether to show a header or footer: always. */
  predicate ShouldPresentHeader(sectionIndex: int) { true }

  predicate ShouldPresentFooter(sectionIndex: int) { true }

  class DefaultChatCollectionDataSource {
    var sections: seq<Section>
    var oldSections: seq<Section>
    /** Image views by message id: the message id's hash. */
    var mediaImageViews: map<string, int>
    var isEditing: bool
    const hash: string -> int

    constructor (hash: string -> int)
      ensures sections == [] && oldSections == [] && mediaImageViews == map[] && !isEditing
      ensures this.hash == hash
    {
      this.hash := hash;
      sections := [];
      oldSections := [];
      mediaImageViews := map[];
      isEditing := false;
    }

    /** The `sections` setter: the value being replaced becomes `oldSections`. */
    method SetSections(s: seq<Section>)
      modifies this`sections, this`oldSections
      ensures sections == s && oldSections == old(sections)
    {
      oldSections := sections;
      sections := s;
    }

    function NumberOfSections(): (n: nat)
      reads this
      ensures n == |sections|
    {
      |sections|
    }

    function NumberOfItems(section: int): (n: nat)
      reads this
      requires 0 <= section < |sections|
      ensures n == |sections[section].cells|
    {
      |sections[section].cells|
    }

    predicate ValidItem(section: int, item: int)
      reads this
    {
      0 <= section < |sections| && 0 <= item < |sections[section].cells|
    }

    /** `alignmentForItem`. */
    function AlignmentForItem(kind: ItemKind, section: int, item: int): (a: ChatItemAlignment)
      reads this
      requires kind == CellItem ==> ValidItem(section, item)
      ensures kind == HeaderItem ==> a == Center
      ensures kind == FooterItem ==> a == Trailing
      ensures kind == CellItem ==>
        var c := sections[section].cells[item];
        (a == Center <==> c.DateCell? || c.SystemMessageCell?) &&
        (a == FullWidth <==> c.MessageCell?) &&
        (a == Leading <==> c.TypingIndicator? || (c.MessageGroupCell? && c.messageGroup.kind == Incoming)) &&
        (a == Trailing <==> c.MessageGroupCell? && c.messageGroup.kind == Outgoing)
    {
      match kind
      case HeaderItem => Center
      case FooterItem => Trailing
      case CellItem =>
        match sections[section].cells[item]
        case DateCell(_) => Center
        case SystemMessageCell(_) => Center
        case MessageCell(_, _) => FullWidth
        case MessageGroupCell(g) => if g.kind == Incoming then Leading else Trailing
        case TypingIndicator => Leading
    }

    /** `cellForItemAt`: builds the row's cell; an image cell records its message's image view. */
    method CellForItem(section: int, item: int) returns (v: CellView)
      requires ValidItem(section, item)
      modifies this`mediaImageViews
      ensures v == CellViewFor(sections[section].cells[item])
      ensures v.ImageCellView? ==>
        mediaImageViews == old(mediaImageViews)[v.messageID := hash(v.messageID)]
      ensures !v.ImageCellView? ==> mediaImageViews == old(mediaImageViews)
    {
      var cell := sections[section].cells[item];
      v := CellViewFor(cell);
      if v.ImageCellView? {
        mediaImageViews := mediaImageViews[cell.message.id := hash(cell.message.id)];
      }
    }
  }

  /**
   * A message group is laid out as incoming exactly when its sender type is
   * incoming, and only typing indicators and incoming groups are.
   */
  lemma AlignmentIncomingIff(ds: DefaultChatCollectionDataSource, section: int, item: int)
    requires ds.ValidItem(section, item)
    ensures var c := ds.sections[section].cells[item];
      AlignmentIsIncoming(ds.AlignmentForItem(CellItem, section, item)) <==>
        c.TypingIndicator? || (c.MessageGroupCell? && IsIncoming(c.messageGroup.kind))
    ensures AlignmentIsIncoming(ds.AlignmentForItem(HeaderItem, section, item)) == false
    ensures AlignmentIsIncoming(ds.AlignmentForItem(FooterItem, section, item)) == false
  {
  }

  /** Every section gets its header and its footer. */
  lemma HeadersAndFootersAlwaysPresented(sectionIndex: int)
    ensures ShouldPresentHeader(sectionIndex) && ShouldPresentFooter(sectionIndex)
  {
  }
}
