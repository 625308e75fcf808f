/**
 * The chat input bar: which right-hand button shows, the "more" button and
 * the input pad it installs, enabling and disabling input, the picker's
 * type whitelist, and the attachments and pad taps it forwards to its
 * delegate.
 *
 * Text-view rendering is reduced to a few flags; the photo picker, the file
 * helper and the delegate's own work are outside the model, and their
 * results arrive as parameters.
 */
module InputBar {

  // The uniform type identifiers behind the `kUTType…` constants.
  const UTI_PNG: string := "public.png"
  const UTI_JPEG: string := "public.jpeg"
  const UTI_GIF: string := "com.compuserve.gif"
  const UTI_BMP: string := "com.microsoft.bmp"
  const UTI_WEBP: string := "public.webp"
  const UTI_MPEG4: string := "public.mpeg-4"
  const UTI_QUICKTIME: string := "com.apple.quicktime-movie"
  const UTI_HEIC: string := "public.heic"

  /** The identifiers the chat may send. */
  const ALLOWED_UTIS: set<string> :=
    {UTI_PNG, UTI_JPEG, UTI_GIF, UTI_BMP, UTI_WEBP, UTI_MPEG4, UTI_QUICKTIME, UTI_HEIC}

  /** `allowSendImageTypeHelper`: one comparison per allowed identifier. */
  predicate AllowSendImageType(uti: string)
  {
    uti == UTI_PNG || uti == UTI_JPEG || uti == UTI_GIF || uti == UTI_BMP ||
    uti == UTI_WEBP || uti == UTI_MPEG4 || uti == UTI_QUICKTIME || uti == UTI_HEIC
  }

  lemma AllowSendImageTypeIsWhitelist(uti: string)
    ensures AllowSendImageType(uti) <==> uti in ALLOWED_UTIS
    ensures |ALLOWED_UTIS| == 8
    ensures !AllowSendImageType("public.tiff") && !AllowSendImageType("")
  {
    assert UTI_PNG != UTI_JPEG && UTI_PNG[7] != UTI_HEIC[7];
    assert |ALLOWED_UTIS| == 8 by {
      var s := ALLOWED_UTIS;
      assert UTI_PNG[0] != UTI_GIF[0] && UTI_GIF[4] != UTI_BMP[4] && UTI_QUICKTIME[0] != UTI_GIF[1];
      assert UTI_JPEG[7] != UTI_WEBP[7] && UTI_WEBP[7] != UTI_MPEG4[7] && UTI_MPEG4[7] != UTI_HEIC[7];
      assert UTI_PNG[7] != UTI_JPEG[7] && UTI_PNG[7] != UTI_WEBP[7] && UTI_PNG[7] != UTI_MPEG4[7];
      assert UTI_JPEG[7] != UTI_MPEG4[7] && UTI_JPEG[7] != UTI_HEIC[7] && UTI_WEBP[7] != UTI_HEIC[7];
      assert UTI_GIF[0] != UTI_BMP[1] && UTI_GIF[4] != UTI_QUICKTIME[4] && UTI_BMP[4] != UTI_QUICKTIME[4];
    }
    assert "public.tiff"[7] == 't';
  }

  /** The right-hand stack shows one of these. */
  datatype RightItem = MoreButton | SendButton

  datatype TextAlignment = AlignLeft | AlignCenter

  /** `CustomAttachment.image(relativePath, fullPath)` */
  datatype CustomAttachment = Image(relativePath: string, fullPath: string)

  datatype PadItemType = Album | OtherPadItem(name: string)

  /** A picked asset: a video, an image (a GIF or not, with the GIF data loaded or not), or anything else. */
  datatype PickedAsset = VideoAsset | ImageAsset(isGif: bool, hasGifData: bool) | OtherAsset

  /** What the picker callback sends for one asset: images only, and a GIF only with its data. */
  function AssetBatch(asset: PickedAsset, file: CustomAttachment): (batch: seq<seq<CustomAttachment>>)
    ensures |batch| <= 1
    ensures |batch| == 1 <==> asset.ImageAsset? && !(asset.isGif && !asset.hasGifData)
    ensures |batch| == 1 ==> batch[0] == [file]
  {
    match asset
    case ImageAsset(isGif, hasGifData) => if isGif && !hasGifData then [] else [[file]]
    case _ => []
  }

  /**
   * The attachment batches the picker callback sends, in asset order.
   * `saved[i]` is the file the helper saves for asset `i`.
   */
  function PickedBatches(assets: seq<PickedAsset>, saved: seq<CustomAttachment>): (batches: seq<seq<CustomAttachment>>)
    requires |saved| == |assets|
    ensures |batches| <= |assets|
  {
    if assets == [] then []
    else
      var n := |assets| - 1;
      PickedBatches(assets[..n], saved[..n]) + AssetBatch(assets[n], saved[n])
  }

  /** Every batch holds one attachment, and without image assets nothing is sent. */
  lemma {:induction false} PickedBatchesShape(assets: seq<PickedAsset>, saved: seq<CustomAttachment>)
    requires |saved| == |assets|
    ensures forall b :: b in PickedBatches(assets, saved) ==> |b| == 1
    ensures (forall i :: 0 <= i < |assets| ==> !assets[i].ImageAsset?) ==> PickedBatches(assets, saved) == []
  {
    if assets != [] {
      var n := |assets| - 1;
      PickedBatchesShape(assets[..n], saved[..n]);
      var front := PickedBatches(assets[..n], saved[..n]);
      var last := AssetBatch(assets[n], saved[n]);
      assert PickedBatches(assets, saved) == front + last;
      if forall i :: 0 <= i < |assets| ==> !assets[i].ImageAsset? {
        assert forall i :: 0 <= i < n ==> assets[..n][i] == assets[i];
        assert !assets[n].ImageAsset?;
      }
    }
  }

  /** An image asset that is not a GIF always reaches the delegate, as its own one-element batch. */
  lemma {:induction false} PlainImageIsSent(assets: seq<PickedAsset>, saved: seq<CustomAttachment>, i: nat)
    requires |saved| == |assets| && i < |assets|
    requires assets[i] == ImageAsset(false, false) || assets[i] == ImageAsset(false, true)
    ensures [saved[i]] in PickedBatches(assets, saved)
  {
    var n := |assets| - 1;
    if i < n {
      PlainImageIsSent(assets[..n], saved[..n], i);
    } else {
      assert AssetBatch(assets[n], saved[n]) == [[saved[i]]];
    }
  }

  lemma AppendAssoc<T>(a: seq<T>, b: seq<T>, c: seq<T>)
    ensures (a + b) + c == a + (b + c)
  {
  }

  lemma PickedBatchesStep(assets: seq<PickedAsset>, saved: seq<CustomAttachment>, j: nat)
    requires |saved| == |assets| && j < |assets|
    ensures PickedBatches(assets[..j + 1], saved[..j + 1]) ==
      PickedBatches(assets[..j], saved[..j]) + AssetBatch(assets[j], saved[j])
  {
    assert assets[..j + 1][..j] == assets[..j] && saved[..j + 1][..j] == saved[..j];
  }

  class CoustomInputBarAccessoryView {
    var rightItems: seq<RightItem>
    var moreSelected: bool
    /** Whether the text view's `inputView` is the input pad. */
    var inputPadInstalled: bool
    var isEditable: bool
    var textAlignment: TextAlignment
    var moreEnabled: bool
    var sendEnabled: bool
    var firstResponder: bool
    /** Whether the cursor is drawn in the clear colour. */
    var cursorClear: bool
    var sendAnimating: bool
    var isHidden: bool
    var hasDelegate: bool
    /** The attachment lists forwarded to the delegate, in order. */
    var sentBatches: seq<seq<CustomAttachment>>
    /** The pad items forwarded to the delegate, in order. */
    var padTaps: seq<PadItemType>
    /** How many times the photo library has been presented. */
    var libraryPresented: nat
    /** How many text-change notices the delegate has received. */
    var textChangeNotices: nat
    /** How many "unsupported type" alerts have been shown. */
    var typeAlerts: nat

    /** One right-hand item at a time; the input pad is installed exactly while "more" is selected. */
    predicate Valid()
      reads this
    {
      (rightItems == [MoreButton] || rightItems == [SendButton]) &&
      (inputPadInstalled <==> moreSelected)
    }

    /** `init(frame:)`: the right stack holds the more button; nothing is selected. */
    constructor (delegatePresent: bool)
      ensures Valid()
      ensures rightItems == [MoreButton] && !moreSelected && !inputPadInstalled
      ensures isEditable && textAlignment == AlignLeft && moreEnabled && sendEnabled
      ensures !firstResponder && !isHidden && hasDelegate == delegatePresent
      ensures sentBatches == [] && padTaps == [] && libraryPresented == 0 && textChangeNotices == 0 && typeAlerts == 0
    {
      rightItems := [MoreButton];
      moreSelected := false;
      inputPadInstalled := false;
      isEditable := true;
      textAlignment := AlignLeft;
      moreEnabled := true;
      sendEnabled := true;
      firstResponder := false;
      cursorClear := false;
      sendAnimating := false;
      isHidden := false;
      hasDelegate := delegatePresent;
      sentBatches := [];
      padTaps := [];
      libraryPresented := 0;
      textChangeNotices := 0;
      typeAlerts := 0;
    }

    /**
     * The picker's selection rule: an asset can be selected when some
     * resource has an allowed identifier; otherwise an alert is shown.
     */
    method CanSelect(resourceUTIs: seq<string>) returns (canSelect: bool)
      modifies this`typeAlerts
      ensures canSelect <==> exists i :: 0 <= i < |resourceUTIs| && AllowSendImageType(resourceUTIs[i])
      ensures typeAlerts == old(typeAlerts) + (if canSelect then 0 else 1)
    {
      canSelect := false;
      var k := 0;
      while k < |resourceUTIs|
        invariant 0 <= k <= |resourceUTIs|
        invariant !canSelect
        invariant forall i :: 0 <= i < k ==> !AllowSendImageType(resourceUTIs[i])
      {
        if AllowSendImageType(resourceUTIs[k]) {
          canSelect := true;
          break;
        }
        k := k + 1;
      }
      if !canSelect {
        typeAlerts := typeAlerts + 1;
      }
    }

    /** `toggleMoreButtonStatus`: the more button when asked to show it, the send button otherwise. */
    method ToggleMoreButtonStatus(showMore: bool)
      requires Valid()
      modifies this`rightItems
      ensures Valid()
      ensures rightItems == [if showMore then MoreButton else SendButton]
    {
      if showMore {
        rightItems := [MoreButton];
      } else {
        rightItems := [SendButton];
      }
    }

    /** `inputTextViewDidChange`: empty text shows "more", any text shows "send"; the delegate hears of it. */
    method InputTextViewDidChange(text: string)
      requires Valid()
      modifies this`rightItems, this`textChangeNotices
      ensures Valid()
      ensures rightItems == [MoreButton] <==> text == []
      ensures rightItems == [SendButton] <==> text != []
      ensures textChangeNotices == old(textChangeNotices) + (if hasDelegate then 1 else 0)
    {
      ToggleMoreButtonStatus(|text| == 0);
      if hasDelegate {
        textChangeNotices := textChangeNotices + 1;
      }
    }

    /** `sendAttachments`: a non-empty list reaches the delegate, an empty one is dropped. */
    method SendAttachments(attachments: seq<CustomAttachment>)
      modifies this`sentBatches
      ensures sentBatches == old(sentBatches) + (if |attachments| > 0 && hasDelegate then [attachments] else [])
      ensures forall b :: b in sentBatches && b !in old(sentBatches) ==> |b| > 0
    {
      if |attachments| > 0 && hasDelegate {
        sentBatches := sentBatches + [attachments];
      }
    }

    /**
     * `didPhotoSelected`: the send button animates, and each image asset is
     * saved and sent as its own attachment list.
     */
    method DidPhotoSelected(assets: seq<PickedAsset>, saved: seq<CustomAttachment>)
      requires |saved| == |assets|
      modifies this`sendAnimating, this`sentBatches
      ensures sendAnimating
      ensures sentBatches == old(sentBatches) + (if hasDelegate then PickedBatches(assets, saved) else [])
    {
      sendAnimating := true;
      var before := sentBatches;
      ghost var picked: seq<seq<CustomAttachment>> := [];
      for j := 0 to |assets|
        invariant sendAnimating
        invariant picked == PickedBatches(assets[..j], saved[..j])
        invariant sentBatches == before + (if hasDelegate then picked else [])
      {
        PickedBatchesStep(assets, saved, j);
        ghost var batch := AssetBatch(assets[j], saved[j]);
        SendAsset(assets[j], saved[j]);
        AppendAssoc(before, if hasDelegate then picked else [], if hasDelegate then batch else []);
        picked := picked + batch;
      }
      assert assets[..|assets|] == assets && saved[..|assets|] == saved;
    }

    /** One asset's share of `didPhotoSelected`. */
    method SendAsset(asset: PickedAsset, file: CustomAttachment)
      modifies this`sentBatches
      ensures sentBatches == old(sentBatches) + (if hasDelegate then AssetBatch(asset, file) else [])
    {
      match asset
      case ImageAsset(isGif, hasGifData) =>
        if !(isGif && !hasGifData) {
          SendAttachments([file]);
        }
      case _ =>
    }

    /** Tapping "more" flips its selection, installs the pad iff selected, and focuses the text view. */
    method MoreButtonTapped()
      requires Valid()
      modifies this`moreSelected, this`inputPadInstalled, this`firstResponder, this`cursorClear
      ensures Valid()
      ensures moreSelected == !old(moreSelected) && inputPadInstalled == moreSelected
      ensures firstResponder && cursorClear
    {
      moreSelected := !moreSelected;
      inputPadInstalled := moreSelected;
      firstResponder := true;
      cursorClear := true;
    }

    /** `enableInput`: editing and both buttons follow the flag; disabling also drops the keyboard. */
    method EnableInput(enable: bool)
      requires Valid()
      modifies this`isEditable, this`textAlignment, this`moreEnabled, this`sendEnabled, this`firstResponder
      ensures Valid()
      ensures isEditable == enable && moreEnabled == enable && sendEnabled == enable
      ensures textAlignment == (if enable then AlignLeft else AlignCenter)
      ensures firstResponder == (enable && old(firstResponder))
    {
      isEditable := enable;
      textAlignment := if enable then AlignLeft else AlignCenter;
      moreEnabled := enable;
      sendEnabled := enable;
      if !enable {
        firstResponder := false;
      }
    }

    /** `inputResignFirstResponder`: deselects "more", drops the keyboard and the pad. */
    method InputResignFirstResponder()
      requires Valid()
      modifies this`moreSelected, this`firstResponder, this`inputPadInstalled
      ensures Valid()
      ensures !moreSelected && !firstResponder && !inputPadInstalled
    {
      moreSelected := false;
      firstResponder := false;
      inputPadInstalled := false;
    }

    /** `inputBecomeFirstResponder`: deselects "more" and brings back the keyboard in place of the pad. */
    method InputBecomeFirstResponder()
      requires Valid()
      modifies this`moreSelected, this`inputPadInstalled
      ensures Valid()
      ensures !moreSelected && !inputPadInstalled
    {
      moreSelected := false;
      inputPadInstalled := false;
    }

    /** `hitTest`: a touch on the text view while the pad is up swaps the keyboard back in. */
    method HitTest(onTextView: bool)
      requires Valid()
      modifies this`moreSelected, this`inputPadInstalled, this`cursorClear
      ensures Valid()
      ensures onTextView && old(inputPadInstalled) ==> !moreSelected && !inputPadInstalled && !cursorClear
      ensures !(onTextView && old(inputPadInstalled)) ==>
        moreSelected == old(moreSelected) && inputPadInstalled == old(inputPadInstalled) && cursorClear == old(cursorClear)
    {
      if onTextView && inputPadInstalled {
        InputBecomeFirstResponder();
        cursorClear := false;
      }
    }

    method InputTextViewDidBeginEditing()
      modifies this`cursorClear
      ensures !cursorClear
    {
      cursorClear := false;
    }

    /** `didSelect(type:)`: the delegate hears of every pad item; the album opens the photo library. */
    method DidSelect(item: PadItemType)
      modifies this`padTaps, this`libraryPresented
      ensures padTaps == old(padTaps) + (if hasDelegate then [item] else [])
      ensures libraryPresented == old(libraryPresented) + (if item == Album then 1 else 0)
    {
      if hasDelegate {
        padTaps := padTaps + [item];
      }
      if item == Album {
        libraryPresented := libraryPresented + 1;
      }
    }

    method PresentationControllerWillDismiss()
      modifies this`isHidden
      ensures !isHidden
    {
      isHidden := false;
    }
  }
}
