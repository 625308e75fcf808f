/**
 * The chat screen's update gating: two sets of in-progress actions, the
 * first load that ignores interface actions, updates deferred until no
 * interface action is running, and the two ways an update reaches the
 * collection view (a full reload on the first load, a staged replay
 * afterwards).
 *
 * The interface-action set is a SetActor: a set plus a queue of run-once
 * reactions that fire when the set becomes empty.  A reaction here is a
 * deferred `processUpdates` call; a method that empties the set returns
 * the reactions that fired, for the caller to run in order.
 *
 * The staged diff of the current sections against the target comes from
 * DifferenceKit and is passed in; its last stage holds the target.
 */
module ChatView {
  import opened Opt
  import opened ChatMessage
  import opened StagedChangesets
  import opened ChatDataSource

  datatype InterfaceAction =
    | ChangingKeyboardFrame
    | ChangingContentInsets
    | ChangingFrameSize
    | SendingMessage
    | ScrollingToTop
    | ScrollingToBottom
    | ShowingPreview
    | ShowingAccessory
    | UpdatingCollectionInIsolation

  datatype ControllerAction =
    | LoadingInitialMessages
    | LoadingPreviousMessages
    | LoadingMoreMessages
    | UpdatingCollection

  /** The completion handed to `processUpdates`, by what it does. */
  datatype CompletionKind = NoCompletion | InitialLoadDone | PreviousLoadDone

  /** A `.delayedUpdate` reaction: the arguments of the deferred `processUpdates` call. */
  datatype PendingUpdate = PendingUpdate(
    sections: seq<Section>,
    animated: bool,
    requiresIsolatedProcess: bool,
    completion: CompletionKind)

  type Stages = seq<Changeset<seq<Section>>>

  /** The interrupt predicate of the incremental path: a stage that inserts sections. */
  function InsertsSections(cs: Changeset<seq<Section>>): bool {
    |cs.sectionInserted| > 0
  }

  /** The controller actions after a completion has run. */
  function AfterCompletion(k: CompletionKind, actions: set<ControllerAction>): set<ControllerAction> {
    match k
    case NoCompletion => actions
    case InitialLoadDone => actions - {LoadingInitialMessages}
    case PreviousLoadDone => actions - {LoadingPreviousMessages}
  }

  /** The completions that run when `k` is called (none for a missing completion). */
  function Called(k: CompletionKind): seq<CompletionKind> {
    if k == NoCompletion then [] else [k]
  }

  // ------------------------------------------------------------ whitespace

  /** `CharacterSet.whitespacesAndNewlines`, restricted to the common code points. */
  predicate IsWhitespace(c: char) {
    c == ' ' || c == '\t' || c == '\n' || c == '\r' || c == '\U{000B}' || c == '\U{000C}' ||
    c == '\U{0085}' || c == '\U{00A0}' || c == '\U{2028}' || c == '\U{2029}' || c == '\U{3000}'
  }

  /** The bounds `trimmingCharacters(in: .whitespacesAndNewlines)` keeps. */
  function TrimBounds(s: string): (b: (nat, nat))
    ensures b.0 <= b.1 <= |s|
    ensures forall k :: 0 <= k < b.0 ==> IsWhitespace(s[k])
    ensures forall k :: b.1 <= k < |s| ==> IsWhitespace(s[k])
    ensures b.0 < b.1 ==> !IsWhitespace(s[b.0]) && !IsWhitespace(s[b.1 - 1])
    ensures b.0 == b.1 ==> b.0 == 0 && b.1 == 0
    decreases |s|
  {
    if |s| == 0 then (0, 0)
    else if IsWhitespace(s[0]) then
      var t := TrimBounds(s[1..]);
      if t.0 == t.1 then (0, 0) else (t.0 + 1, t.1 + 1)
    else
      var e := TrimEnd(s);
      (0, e)
  }

  /** The length of `s` without its trailing whitespace; `s[0]` is not whitespace. */
  function TrimEnd(s: string): (e: nat)
    requires |s| > 0 && !IsWhitespace(s[0])
    ensures 0 < e <= |s| && !IsWhitespace(s[e - 1])
    ensures forall k :: e <= k < |s| ==> IsWhitespace(s[k])
    decreases |s|
  {
    if !IsWhitespace(s[|s| - 1]) then |s| else TrimEnd(s[..|s| - 1])
  }

  function Trim(s: string): string {
    var b := TrimBounds(s);
    s[b.0..b.1]
  }

  /** The trimmed text is empty exactly when the text is all whitespace. */
  lemma TrimEmptyIff(s: string)
    ensures |Trim(s)| == 0 <==> forall k :: 0 <= k < |s| ==> IsWhitespace(s[k])
  {
    var b := TrimBounds(s);
    if b.0 < b.1 {
      assert !IsWhitespace(s[b.0]);
    }
  }

  // ------------------------------------------------------------ controller

  class ChatViewController {
    var interfaceActions: set<InterfaceAction>
    /** The SetActor's queued `.delayedUpdate` reactions (`.onEmpty`, `.once`). */
    var delayedUpdates: seq<PendingUpdate>
    var controllerActions: set<ControllerAction>
    var ignoreInterfaceActions: bool
    var isViewLoaded: bool
    /** Whether the collection view is in a window. */
    var hasWindow: bool
    /** The calls made on the collection view, in order. */
    var viewCalls: seq<ViewOp<seq<Section>>>
    /** The `processUpdates` completions that ran, in order. */
    var completions: seq<CompletionKind>
    const dataSource: DefaultChatCollectionDataSource

    /** A reaction is queued only while some interface action runs, so none is stranded. */
    predicate Valid()
      reads this
    {
      |delayedUpdates| > 0 ==> interfaceActions != {}
    }

    constructor (dataSource: DefaultChatCollectionDataSource)
      ensures Valid()
      ensures interfaceActions == {} && delayedUpdates == [] && controllerActions == {}
      ensures ignoreInterfaceActions && !isViewLoaded && !hasWindow
      ensures viewCalls == [] && completions == [] && this.dataSource == dataSource
    {
      this.dataSource := dataSource;
      interfaceActions := {};
      delayedUpdates := [];
      controllerActions := {};
      ignoreInterfaceActions := true;
      isViewLoaded := false;
      hasWindow := false;
      viewCalls := [];
      completions := [];
    }

    method ViewDidLoad(inWindow: bool)
      modifies this`isViewLoaded, this`hasWindow
      ensures isViewLoaded && hasWindow == inWindow
    {
      isViewLoaded := true;
      hasWindow := inWindow;
    }

    /** `options.remove(a)` on the interface SetActor: an emptied set fires the queued reactions. */
    method RemoveInterfaceAction(a: InterfaceAction) returns (fired: seq<PendingUpdate>)
      requires Valid()
      modifies this`interfaceActions, this`delayedUpdates
      ensures Valid()
      ensures interfaceActions == old(interfaceActions) - {a}
      ensures interfaceActions == {} ==> fired == old(delayedUpdates) && delayedUpdates == []
      ensures interfaceActions != {} ==> fired == [] && delayedUpdates == old(delayedUpdates)
    {
      interfaceActions := interfaceActions - {a};
      fired := [];
      if interfaceActions == {} {
        fired := delayedUpdates;
        delayedUpdates := [];
      }
    }

    /** Runs a `processUpdates` completion. */
    method RunCompletion(k: CompletionKind)
      modifies this`controllerActions, this`ignoreInterfaceActions, this`completions
      ensures controllerActions == AfterCompletion(k, old(controllerActions))
      ensures ignoreInterfaceActions == (old(ignoreInterfaceActions) && k != InitialLoadDone)
      ensures completions == old(completions) + Called(k)
    {
      match k {
        case NoCompletion =>
        case InitialLoadDone =>
          controllerActions := controllerActions - {LoadingInitialMessages};
          ignoreInterfaceActions := false;
        case PreviousLoadDone =>
          controllerActions := controllerActions - {LoadingPreviousMessages};
      }
      completions := completions + Called(k);
    }

    /** The `setData` closure of `reload`, run for every call that sets data. */
    method ApplySetData(calls: seq<ViewOp<seq<Section>>>)
      modifies dataSource`sections, dataSource`oldSections
      ensures LastDataSet(calls).Some? ==> dataSource.sections == LastDataSet(calls).value
      ensures LastDataSet(calls).None? ==> dataSource.sections == old(dataSource.sections)
    {
      for i := 0 to |calls|
        invariant LastDataSet(calls[..i]).Some? ==> dataSource.sections == LastDataSet(calls[..i]).value
        invariant LastDataSet(calls[..i]).None? ==> dataSource.sections == old(dataSource.sections)
      {
        assert calls[..i + 1][..i] == calls[..i];
        match calls[i] {
          case SetData(d) => dataSource.SetSections(d);
          case PerformBatch(cs) => dataSource.SetSections(cs.data);
          case _ =>
        }
      }
      assert calls[..|calls|] == calls;
    }

    /** The first-load path of `process()`: set the final snapshot and reload everything. */
    method FullReloadUpdate(data: seq<Section>, requiresIsolatedProcess: bool, completion: CompletionKind)
      returns (fired: seq<PendingUpdate>)
      requires Valid()
      modifies this`interfaceActions, this`delayedUpdates, this`controllerActions, this`ignoreInterfaceActions,
               this`completions, this`viewCalls, dataSource`sections, dataSource`oldSections
      ensures Valid()
      ensures dataSource.sections == data && viewCalls == old(viewCalls) + [ReloadData]
      ensures completions == old(completions) + Called(completion)
      ensures controllerActions == AfterCompletion(completion, old(controllerActions)) - {UpdatingCollection}
      ensures ignoreInterfaceActions == (old(ignoreInterfaceActions) && completion != InitialLoadDone)
      ensures interfaceActions ==
        old(interfaceActions) - (if requiresIsolatedProcess then {UpdatingCollectionInIsolation} else {})
    {
      dataSource.SetSections(data);
      if requiresIsolatedProcess {
        interfaceActions := interfaceActions + {UpdatingCollectionInIsolation};
      }
      viewCalls := viewCalls + [ReloadData];
      fired := [];
      if requiresIsolatedProcess {
        fired := RemoveInterfaceAction(UpdatingCollectionInIsolation);
      }
      RunCompletion(completion);
      controllerActions := controllerActions - {UpdatingCollection};
    }

    /** The incremental path of `process()`: replay the stages, interrupting on section inserts. */
    method StagedUpdate(changeSet: Stages, requiresIsolatedProcess: bool, completion: CompletionKind)
      returns (fired: seq<PendingUpdate>)
      requires Valid() && |changeSet| > 0
      modifies this`interfaceActions, this`delayedUpdates, this`controllerActions, this`ignoreInterfaceActions,
               this`completions, this`viewCalls, dataSource`sections, dataSource`oldSections
      ensures Valid()
      ensures dataSource.sections == LastStage(changeSet).data
      ensures viewCalls == old(viewCalls) + ReloadTrace(changeSet, hasWindow, Some(InsertsSections), true, true)
      ensures completions == old(completions) + Called(completion)
      ensures controllerActions == AfterCompletion(completion, old(controllerActions)) - {UpdatingCollection}
      ensures ignoreInterfaceActions == (old(ignoreInterfaceActions) && completion != InitialLoadDone)
      ensures interfaceActions ==
        old(interfaceActions) - (if requiresIsolatedProcess then {UpdatingCollectionInIsolation} else {})
    {
      if requiresIsolatedProcess {
        interfaceActions := interfaceActions + {UpdatingCollectionInIsolation};
      }
      controllerActions := controllerActions + {UpdatingCollection};
      ReplayStages(changeSet);
      // the completion of `reload`, called once, after the last call
      fired := [];
      if requiresIsolatedProcess {
        fired := RemoveInterfaceAction(UpdatingCollectionInIsolation);
      }
      RunCompletion(completion);
      controllerActions := controllerActions - {UpdatingCollection};
    }

    /** `reload(using:…)` on the collection view, interrupting on section inserts, with its `setData` closure. */
    method ReplayStages(changeSet: Stages)
      requires |changeSet| > 0
      modifies this`viewCalls, dataSource`sections, dataSource`oldSections
      ensures dataSource.sections == LastStage(changeSet).data
      ensures viewCalls == old(viewCalls) + ReloadTrace(changeSet, hasWindow, Some(InsertsSections), true, true)
    {
      var calls := Reload(changeSet, hasWindow, Some(InsertsSections), true, true);
      ReloadEndsOnFinalData(changeSet, hasWindow, Some(InsertsSections), true, true);
      ApplySetData(calls);
      viewCalls := viewCalls + calls;
    }

    /** Whether `processUpdates` gets past its two guards. */
    predicate Processes()
      reads this
    {
      isViewLoaded && (interfaceActions == {} || ignoreInterfaceActions)
    }

    /** `processUpdates(with:animated:requiresIsolatedProcess:completion:)`, the collection view's reload run synchronously. */
    method ProcessUpdates(target: seq<Section>, animated: bool, requiresIsolatedProcess: bool,
                          completion: CompletionKind, staged: Stages) returns (fired: seq<PendingUpdate>)
      requires Valid()
      requires |staged| > 0 ==> LastStage(staged).data == target
      modifies this, dataSource`sections, dataSource`oldSections
      ensures Valid()
      // not loaded: only the data source is assigned, no completion runs
      ensures !old(isViewLoaded) ==>
        dataSource.sections == target && fired == [] && unchanged(this)
      // interface actions running: deferred, nothing else changes
      ensures old(isViewLoaded) && !old(Processes()) ==>
        delayedUpdates == old(delayedUpdates) + [PendingUpdate(target, animated, requiresIsolatedProcess, completion)] &&
        dataSource.sections == old(dataSource.sections) && fired == [] &&
        interfaceActions == old(interfaceActions) && controllerActions == old(controllerActions) &&
        completions == old(completions) && viewCalls == old(viewCalls)
      // processed: the completion runs once
      ensures old(Processes()) ==>
        completions == old(completions) + Called(completion) &&
        ignoreInterfaceActions == (old(ignoreInterfaceActions) && completion != InitialLoadDone)
      // processed, nothing to change
      ensures old(Processes()) && |staged| == 0 ==>
        dataSource.sections == old(dataSource.sections) && fired == [] &&
        controllerActions == AfterCompletion(completion, old(controllerActions)) &&
        viewCalls == old(viewCalls) && interfaceActions == old(interfaceActions)
      // processed: the sections become the target, the flags raised for the update are lowered
      ensures old(Processes()) && |staged| > 0 ==>
        dataSource.sections == target &&
        controllerActions == AfterCompletion(completion, old(controllerActions)) - {UpdatingCollection} &&
        interfaceActions == old(interfaceActions) - (if requiresIsolatedProcess then {UpdatingCollectionInIsolation} else {}) &&
        viewCalls == old(viewCalls) +
          (if old(ignoreInterfaceActions) then [ReloadData]
           else ReloadTrace(FlattenIfPossible(staged), old(hasWindow), Some(InsertsSections), true, true))
    {
      fired := [];
      if !isViewLoaded {
        dataSource.SetSections(target);
        return;
      }
      if !(interfaceActions == {} || ignoreInterfaceActions) {
        delayedUpdates := delayedUpdates + [PendingUpdate(target, animated, requiresIsolatedProcess, completion)];
        return;
      }
      // `animated` only chooses whether UIKit animates; both branches run `process()`
      var changeSet := FlattenIfPossible(staged);
      if |changeSet| == 0 {
        RunCompletion(completion);
        return;
      }
      if ignoreInterfaceActions {
        // only the first load
        fired := FullReloadUpdate(LastStage(changeSet).data, requiresIsolatedProcess, completion);
      } else {
        fired := StagedUpdate(changeSet, requiresIsolatedProcess, completion);
      }
    }

    /** `loadInitialMessages`: starts a load unless one is running. */
    method LoadInitialMessages() returns (started: bool)
      modifies this`controllerActions
      ensures started <==> LoadingInitialMessages !in old(controllerActions)
      ensures controllerActions == old(controllerActions) + {LoadingInitialMessages}
    {
      if LoadingInitialMessages in controllerActions {
        return false;
      }
      controllerActions := controllerActions + {LoadingInitialMessages};
      started := true;
    }

    /** The initial messages arrived: an isolated, unanimated update whose completion ends the load. */
    method InitialMessagesLoaded(target: seq<Section>, staged: Stages) returns (fired: seq<PendingUpdate>)
      requires Valid()
      requires |staged| > 0 ==> LastStage(staged).data == target
      modifies this, dataSource`sections, dataSource`oldSections
      ensures Valid()
      ensures old(isViewLoaded) && old(ignoreInterfaceActions) ==>
        dataSource.sections == (if |staged| == 0 then old(dataSource.sections) else target) &&
        LoadingInitialMessages !in controllerActions && !ignoreInterfaceActions &&
        completions == old(completions) + [InitialLoadDone]
    {
      fired := ProcessUpdates(target, false, true, InitialLoadDone, staged);
    }

    /** `scrollViewShouldScrollToTop`. */
    method ShouldScrollToTop(contentHeight: real) returns (r: bool)
      modifies this`interfaceActions
      ensures r <==>
        (contentHeight > 0.0 &&
         ShowingAccessory !in old(interfaceActions) && ShowingPreview !in old(interfaceActions) &&
         ScrollingToTop !in old(interfaceActions) && ScrollingToBottom !in old(interfaceActions))
      ensures interfaceActions == if r then old(interfaceActions) + {ScrollingToTop} else old(interfaceActions)
    {
      if !(contentHeight > 0.0 &&
           ShowingAccessory !in interfaceActions && ShowingPreview !in interfaceActions &&
           ScrollingToTop !in interfaceActions && ScrollingToBottom !in interfaceActions) {
        return false;
      }
      interfaceActions := interfaceActions + {ScrollingToTop};
      r := true;
    }

    /** `loadPreviousMessages`: marks the load as running. */
    method LoadPreviousMessages()
      modifies this`controllerActions
      ensures controllerActions == old(controllerActions) + {LoadingPreviousMessages}
    {
      if LoadingPreviousMessages !in controllerActions {
        controllerActions := controllerActions + {LoadingPreviousMessages};
      }
    }

    /** The previous page arrived: a non-isolated update whose completion ends the load. */
    method PreviousMessagesLoaded(target: seq<Section>, animated: bool, staged: Stages) returns (fired: seq<PendingUpdate>)
      requires Valid()
      requires |staged| > 0 ==> LastStage(staged).data == target
      modifies this, dataSource`sections, dataSource`oldSections
      ensures Valid()
      ensures old(isViewLoaded) && (old(interfaceActions) == {} || old(ignoreInterfaceActions)) ==>
        LoadingPreviousMessages !in controllerActions && completions == old(completions) + [PreviousLoadDone]
    {
      fired := ProcessUpdates(target, animated, false, PreviousLoadDone, staged);
    }

    /** `scrollViewDidScrollToTop`: unless a load runs, ends the scroll and loads the previous page. */
    method DidScrollToTop() returns (fired: seq<PendingUpdate>)
      requires Valid()
      modifies this`interfaceActions, this`delayedUpdates, this`controllerActions
      ensures Valid()
      ensures LoadingInitialMessages in old(controllerActions) || LoadingPreviousMessages in old(controllerActions) ==>
        fired == [] && interfaceActions == old(interfaceActions) && controllerActions == old(controllerActions) &&
        delayedUpdates == old(delayedUpdates)
      ensures LoadingInitialMessages !in old(controllerActions) && LoadingPreviousMessages !in old(controllerActions) ==>
        interfaceActions == old(interfaceActions) - {ScrollingToTop} &&
        controllerActions == old(controllerActions) + {LoadingPreviousMessages}
    {
      fired := [];
      if LoadingInitialMessages in controllerActions || LoadingPreviousMessages in controllerActions {
        return;
      }
      fired := RemoveInterfaceAction(ScrollingToTop);
      LoadPreviousMessages();
    }

    /**
     * `inputBar(_:didPressSendButtonWith:)` for text: whitespace-only text
     * sends nothing and lowers `.sendingMessage` again; otherwise the
     * trimmed text is sent and `.sendingMessage` stays raised.
     */
    method SendText(text: string) returns (sent: Option<string>, fired: seq<PendingUpdate>)
      requires Valid()
      modifies this`interfaceActions, this`delayedUpdates
      ensures Valid()
      ensures sent.None? <==> forall k :: 0 <= k < |text| ==> IsWhitespace(text[k])
      ensures sent.Some? ==> sent.value == Trim(text) && interfaceActions == old(interfaceActions) + {SendingMessage} && fired == []
      ensures sent.None? ==> interfaceActions == old(interfaceActions) - {SendingMessage}
    {
      var messageText := Trim(text);
      TrimEmptyIff(text);
      interfaceActions := interfaceActions + {SendingMessage};
      if |messageText| == 0 {
        fired := RemoveInterfaceAction(SendingMessage);
        sent := None;
        return;
      }
      fired := [];
      sent := Some(messageText);
    }

    /** `completionHandler()`: the message was sent; lower `.sendingMessage`, then show the new sections. */
    method MessageSent(target: seq<Section>, staged: Stages) returns (fired: seq<PendingUpdate>)
      requires Valid()
      requires |staged| > 0 ==> LastStage(staged).data == target
      modifies this, dataSource`sections, dataSource`oldSections
      ensures Valid()
      ensures interfaceActions == old(interfaceActions) - {SendingMessage}
      // not loaded: the data source takes the sections; lowering the last action fires the queue
      ensures !old(isViewLoaded) ==>
        dataSource.sections == target && completions == old(completions) &&
        fired == (if old(interfaceActions) - {SendingMessage} == {} then old(delayedUpdates) else [])
      // other interface actions still running: the update is queued behind them
      ensures old(isViewLoaded) && old(interfaceActions) - {SendingMessage} != {} && !old(ignoreInterfaceActions) ==>
        delayedUpdates == old(delayedUpdates) + [PendingUpdate(target, true, false, NoCompletion)] &&
        dataSource.sections == old(dataSource.sections) && completions == old(completions) && fired == []
      // processed at once
      ensures old(isViewLoaded) && (old(interfaceActions) - {SendingMessage} == {} || old(ignoreInterfaceActions)) ==>
        completions == old(completions) &&
        (|staged| > 0 ==> dataSource.sections == target)
    {
      var first := RemoveInterfaceAction(SendingMessage);
      var second := ProcessUpdates(target, true, false, NoCompletion, staged);
      fired := first + second;
    }
  }
}
