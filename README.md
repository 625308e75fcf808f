# OpenIM iOS demo: chat core, verified in Dafny

This project models the core logic of the OpenIM iOS demo application and proves properties about it.
The model covers the following parts:

- **The per-conversation message store** (`DefaultChatController`, modules `ChatStore` and `ChatController`).
  - Messages are kept in an ordered list keyed by `clientMsgID`.
  - Operations: append or replace by id, the burn-after-reading filter, sorted merges, selection toggling, updates to sender details, and incoming-message routing.
  - The section the view shows is built from the store. Messages are grouped into same-hour runs. Each run becomes a date row followed by one row per message.
- **The message value types** (`Message.swift`, module `ChatMessage`): identifiers, content equality, media-info equality and hashing, and message summaries.
- **Staged changeset replay** (`DifferenceKit+Extension.swift`, module `StagedChangesets`).
  - `flattenIfPossible`.
  - `reload(using:)` as a trace of the view calls it makes: no window, interruption, per-stage batches in a fixed operation order, and the completion.
- **Update gating in the chat screen** (`ChatViewController`, module `ChatView`).
  - The interface-action and controller-action flags, and delayed updates.
  - Initial and previous-page loads, scroll to top, and sending a text draft.
- **The collection data source** (module `ChatDataSource`): `sections`/`oldSections`, counts, alignment, tap handling, the status indicator and the choice of cell view.
- **The GIF frame pipeline of ZLPhotoBrowser** (module `GifFrames`): the duration gcd, frame expansion, angle normalisation and alpha detection.
- **Contact sectioning and lookup** (module `Contacts`).
- **The voice-message player state machine** (module `AudioPlayer`).
- **Server address composition and IP validation** (module `Endpoints`), with decimal rendering in module `Decimal`.
- **Three screens**, each modelled as a class whose fields the methods update:
  - the screen-lock settings page (`ScreenLock`);
  - the chat input bar (`InputBar`);
  - the main tab controller's badges and login routing (`MainTab`).

Foreign pieces are parameters of the model. These are the calendar hour test, the pinyin initial, hashing, the image cache, the diff algorithm's output, decoded frames and frame properties.
Persistence in `UserDefaults` and `LocalAuthManager` is kept as fields.
Callbacks are taken as synchronous.

## Model

| member | source | states |
|---|---|---|
| ChatMessage.GroupAlignmentRoundTrip | OUIIM/Classes/OIMUIChat/Model/Entity/Message.swift:12-14 | `isIncoming` of the group alignment recovers the message direction, both ways |
| ChatMessage.InfoEqIsHashableEquality | OUIIM/Classes/OIMUIChat/Model/Entity/Message.swift:175-182 | media-info equality is an equivalence that ignores the size and agrees with the hash |
| ChatMessage.NewMessage | OUIIM/Classes/OIMUIChat/Model/Entity/Message.swift:246-264 | a new message starts sending, unselected and not an anchor, with the given id, date, payload, owner and direction |
| ChatMessage.MessageContentEqualIsEquivalence | OUIIM/Classes/OIMUIChat/Model/Entity/Message.swift:289-298 | content equality is reflexive, symmetric and transitive, and equal content implies an equal identifier |
| ChatMessage.ContentEqualIgnoresMediaSize | OUIIM/Classes/OIMUIChat/Model/Entity/Message.swift:175-182 | two image messages differing only in media size are content-equal though not equal |
| ChatMessage.IdentifiersDependOnlyOnId | OUIIM/Classes/OIMUIChat/Model/Entity/Message.swift:75-127 | rows with the same id have the same identifier, whatever their other fields |
| ChatMessage.GetSummary | OUIIM/Classes/OIMUIChat/Model/Entity/Message.swift:268-286 | the summary: the notice tag for notices, the text for plain text and attributed text, the link and image tags, and nothing exactly for custom and empty payloads |
| ChatStore.FirstIndexOf | OUIIM/Classes/OIMUIChat/Controller/DefaultChatController.swift:442-459 | the index of the first message with the id, or none exactly when no message has it |
| ChatStore.UpsertShape | OUIIM/Classes/OIMUIChat/Controller/DefaultChatController.swift:442-459 | appending a message grows the list only when its id is new |
| ChatStore.UpsertKeepsIdsUnique | OUIIM/Classes/OIMUIChat/Controller/DefaultChatController.swift:442-459 | appending by id keeps message ids unique |
| ChatStore.ReplaceKeepsIds | OUIIM/Classes/OIMUIChat/Controller/DefaultChatController.swift:461-468 | replacing by id keeps the length, every id and their uniqueness |
| ChatStore.IsStillValidIff | OUIIM/Classes/OIMUIChat/Controller/DefaultChatController.swift:470-502 | a message is kept iff it is not private, or is read with time left on its burn clock (30 s by default), or is unread |
| ChatStore.FilterValidCount | OUIIM/Classes/OIMUIChat/Controller/DefaultChatController.swift:470-502 | the filter keeps exactly the still-valid messages, each as many times as the input holds it, and drops every other |
| ChatStore.FilterValidConcat | OUIIM/Classes/OIMUIChat/Controller/DefaultChatController.swift:470-502 | the filter keeps input order: it distributes over concatenation, and on one message keeps it exactly when it is still valid |
| ChatStore.InsertByTime | OUIIM/Classes/OIMUIChat/Controller/DefaultChatController.swift:470-502 | inserting one message adds exactly that message |
| ChatStore.InsertByTimeSorted | OUIIM/Classes/OIMUIChat/Controller/DefaultChatController.swift:470-502 | inserting into a time-sorted list keeps it sorted |
| ChatStore.SortByTime | OUIIM/Classes/OIMUIChat/Controller/DefaultChatController.swift:470-502 | the sort by send time is sorted and a permutation of its input |
| ChatStore.SortByTimeOfSorted | OUIIM/Classes/OIMUIChat/Controller/DefaultChatController.swift:504-508 | sorting an already sorted list leaves it unchanged |
| ChatStore.AppendConvertingSpec | OUIIM/Classes/OIMUIChat/Controller/DefaultChatController.swift:470-502 | an empty batch only applies `removeAll`; otherwise the result is sorted and is exactly the kept old messages plus the still-valid new ones, duplicates included |
| ChatStore.InsertConverting | OUIIM/Classes/OIMUIChat/Controller/DefaultChatController.swift:504-508 | prepending older messages gives a sorted permutation of old and new together |
| ChatStore.RewriteSender | OUIIM/Classes/OIMUIChat/Controller/DefaultChatController.swift:688-713 | rewriting sender details keeps the number of messages |
| ChatStore.RewriteSenderPreserves | OUIIM/Classes/OIMUIChat/Controller/DefaultChatController.swift:688-713 | messages from other senders are unchanged; that sender's messages take the new face URL and nickname and keep their id and time; time order and id uniqueness are kept |
| ChatStore.ToggleSelectionCases | OUIIM/Classes/OIMUIChat/Controller/DefaultChatController.swift:830-841 | a selected id is deselected and removed; an unselected existing id is flagged and appended; an unknown id changes nothing |
| ChatStore.FirstIndexOfAppendFresh | OUIIM/Classes/OIMUIChat/Controller/DefaultChatController.swift:830-841 | an id absent from the list is first found at the appended position |
| ChatStore.FirstIndexOfSameIds | OUIIM/Classes/OIMUIChat/Controller/DefaultChatController.swift:830-841 | lists with the same ids in the same places find an id at the same index |
| ChatStore.MessageFlagRoundTrip | OUIIM/Classes/OIMUIChat/Controller/DefaultChatController.swift:830-841 | setting then clearing the selection flag restores an unselected message |
| ChatStore.ToggleTwiceRestores | OUIIM/Classes/OIMUIChat/Controller/DefaultChatController.swift:830-841 | selecting then deselecting the same message restores both lists |
| ChatStore.MessagesWithIdsCount | OUIIM/Classes/OIMUIChat/Controller/DefaultChatController.swift:215-217 | exactly the stored messages whose id is asked for, each as many times as the store holds it |
| ChatStore.MessagesWithIdsConcat | OUIIM/Classes/OIMUIChat/Controller/DefaultChatController.swift:215-217 | the lookup keeps store order: it distributes over concatenation, and on one message keeps it exactly when its id is asked for |
| ChatStore.ConfigStatus | OUIIM/Classes/OIMUIChat/Controller/DefaultChatController.swift:576-584 | send failure and sending carry over; anything else is sent, single-read for one-to-one chats and group-read otherwise |
| ChatStore.ConvertMessage | OUIIM/Classes/OIMUIChat/Controller/DefaultChatController.swift:574-602 | conversion keeps id and date, marks system messages exactly for codes above face or friendship notices, and never yields a date row |
| ChatStore.ConvertAll | OUIIM/Classes/OIMUIChat/Controller/DefaultChatController.swift:523-543 | every stored message converted, in order |
| ChatStore.GroupByHour | OUIIM/Classes/OIMUIChat/Controller/DefaultChatController.swift:523-543 | grouping gives non-empty groups, no more than there are messages |
| ChatStore.GroupByHourFlattens | OUIIM/Classes/OIMUIChat/Controller/DefaultChatController.swift:523-543 | grouping neither loses, duplicates nor reorders messages |
| ChatStore.GroupByHourRuns | OUIIM/Classes/OIMUIChat/Controller/DefaultChatController.swift:523-543 | neighbours within a group share the hour, and each new group starts where the hour changes |
| ChatStore.MessageRow | OUIIM/Classes/OIMUIChat/Controller/DefaultChatController.swift:545-572 | a system message with attributed text becomes a system row; any other message a normal bubble |
| ChatStore.MessageRows | OUIIM/Classes/OIMUIChat/Controller/DefaultChatController.swift:545-572 | one row per message, in order |
| ChatStore.WithoutDatesAppend | OUIIM/Classes/OIMUIChat/Controller/DefaultChatController.swift:545-572 | dropping date rows and counting them both distribute over concatenation |
| ChatStore.MessageRowsHaveNoDates | OUIIM/Classes/OIMUIChat/Controller/DefaultChatController.swift:545-572 | message rows contain no date row |
| ChatStore.MessageRowsAppend | OUIIM/Classes/OIMUIChat/Controller/DefaultChatController.swift:545-572 | rows of concatenated messages are the concatenated rows |
| ChatStore.CellsOfShape | OUIIM/Classes/OIMUIChat/Controller/DefaultChatController.swift:545-572 | the cells are the message rows with exactly one date row per group |
| ChatStore.RunCellsAt | OUIIM/Classes/OIMUIChat/Controller/DefaultChatController.swift:545-572 | run k starts after the messages and date rows of the runs before it: the date row of its first message, then its own message rows in order |
| ChatStore.LatestSectionsShape | OUIIM/Classes/OIMUIChat/Controller/DefaultChatController.swift:510-572 | one section with id 0 and no title, holding a row per message plus a date row per hour group; every hour group is placed as the date row of its first message followed by its message rows |
| ChatStore.FirstCellIsDate | OUIIM/Classes/OIMUIChat/Controller/DefaultChatController.swift:545-572 | the first cell is the date row of the first message |
| ChatController.CurrentChatMatchesKind | OUIIM/Classes/OIMUIChat/Controller/DefaultChatController.swift:742-785 | a message of the open chat has the conversation's type, one-to-one or super group |
| ChatController.ReceivedOutcomes | OUIIM/Classes/OIMUIChat/Controller/DefaultChatController.swift:742-785 | a forced reload replaces the store with exactly the valid messages of the batch (with multiplicity), sorted; an empty batch does nothing; a current-chat message is merged into the store, which stays sorted and gains that message exactly when it is still valid, and is published; another chat only counts unread messages not sent by me |
| ChatController.Unflagged | OUIIM/Classes/OIMUIChat/Controller/DefaultChatController.swift:178-180 | every message deselected, nothing else changed |
| ChatController.DefaultSelectSelectsOne | OUIIM/Classes/OIMUIChat/Controller/DefaultChatController.swift:156-172 | default selection leaves exactly the first message with the id selected and selects it alone |
| ChatController.DefaultChatController.constructor | OUIIM/Classes/OIMUIChat/Controller/DefaultChatController.swift:39-57 | a controller starts with no messages, no selection and no unread count |
| ChatController.DefaultChatController.Snapshot | OUIIM/Classes/OIMUIChat/Controller/DefaultChatController.swift:510-572 | the published section: one row per stored message plus a date row per group, each group being the date row of its first message followed by its message rows |
| ChatController.DefaultChatController.GroupMessagesByDay | OUIIM/Classes/OIMUIChat/Controller/DefaultChatController.swift:523-543 | groups the stored messages, ignoring its argument, into hour runs that flatten back to them |
| ChatController.DefaultChatController.Repopulate | OUIIM/Classes/OIMUIChat/Controller/DefaultChatController.swift:652-656 | the delegate update carries the snapshot and the isolation flag |
| ChatController.DefaultChatController.MessageIsExsit | OUIIM/Classes/OIMUIChat/Controller/DefaultChatController.swift:152-154 | true exactly when some stored message has the id |
| ChatController.DefaultChatController.GetMessageInfo | OUIIM/Classes/OIMUIChat/Controller/DefaultChatController.swift:215-217 | exactly the stored messages with the asked ids, each as many times as it is stored (the order is the store's, by `MessagesWithIdsConcat`) |
| ChatController.DefaultChatController.AppendMessage | OUIIM/Classes/OIMUIChat/Controller/DefaultChatController.swift:442-459 | the loop replaces the first message with the same id or appends, and returns the new snapshot |
| ChatController.DefaultChatController.ReplaceMessage | OUIIM/Classes/OIMUIChat/Controller/DefaultChatController.swift:461-468 | the loop replaces only the first message with the same id |
| ChatController.DefaultChatController.AppendConvertingToMessages | OUIIM/Classes/OIMUIChat/Controller/DefaultChatController.swift:470-502 | the store becomes the append-path merge |
| ChatController.DefaultChatController.InsertConvertingToMessages | OUIIM/Classes/OIMUIChat/Controller/DefaultChatController.swift:504-508 | the store becomes the sorted merge of old and new |
| ChatController.DefaultChatController.ResetSelectedStatus | OUIIM/Classes/OIMUIChat/Controller/DefaultChatController.swift:178-180 | the loop clears every selection flag |
| ChatController.DefaultChatController.SeleteMessageHelper | OUIIM/Classes/OIMUIChat/Controller/DefaultChatController.swift:830-841 | store and selection toggle as in the selection function |
| ChatController.DefaultChatController.SelecteMessage | OUIIM/Classes/OIMUIChat/Controller/DefaultChatController.swift:825-828 | toggles the selection and publishes an isolated update |
| ChatController.DefaultChatController.DefaultSelecteMessage | OUIIM/Classes/OIMUIChat/Controller/DefaultChatController.swift:156-172 | selects as the default-selection function; publishes exactly when an id is given and not only-select |
| ChatController.DefaultChatController.RewriteSenders | OUIIM/Classes/OIMUIChat/Controller/DefaultChatController.swift:705-713 | the loop rewrites sender details of that user's messages |
| ChatController.DefaultChatController.FriendInfoChanged | OUIIM/Classes/OIMUIChat/Controller/DefaultChatController.swift:688-703 | info about the peer is stored; the peer's messages are rewritten and the view republished exactly when the peer's face URL changed |
| ChatController.DefaultChatController.MyUserInfoChanged | OUIIM/Classes/OIMUIChat/Controller/DefaultChatController.swift:705-713 | my messages get my new face and nickname and the view is republished |
| ChatController.DefaultChatController.GroupMemberInfoChanged | OUIIM/Classes/OIMUIChat/Controller/DefaultChatController.swift:715-730 | the member's entry is replaced in the member list unless it is me; that user's messages get the new face and nickname and the view is republished |
| ChatController.DefaultChatController.Received | OUIIM/Classes/OIMUIChat/Controller/DefaultChatController.swift:742-785 | the new store, current-chat flag and unread count are those of the received-messages function, with an update exactly when it repopulates |
| ChatController.DefaultChatController.ReceivedMessage | OUIIM/Classes/OIMUIChat/Controller/DefaultChatController.swift:755-784 | a message of the open chat is merged into the store, sets the current-chat flag and asks for a repopulate; any other clears the flag and counts as unread unless I sent it |
| ChatController.DefaultChatController.ResendCompleted | OUIIM/Classes/OIMUIChat/Controller/DefaultChatController.swift:375-384 | a resend that did not fail replaces the message and republishes; otherwise nothing changes |
| ChatController.DefaultChatController.ConversationChanged | OUIIM/Classes/OIMUIChat/Controller/DefaultChatController.swift:668-670 | the conversation is replaced |
| ChatController.DefaultChatController.UnreadCountChanged | OUIIM/Classes/OIMUIChat/Controller/DefaultChatController.swift:672-676 | the unread count is forwarded exactly when the last message was not for the current chat |
| ChatController.FirstMemberIndex | OUIIM/Classes/OIMUIChat/Controller/DefaultChatController.swift:715-730 | the first member with the user id, or none exactly when none has it |
| ChatController.ReplaceMember | OUIIM/Classes/OIMUIChat/Controller/DefaultChatController.swift:715-730 | replacing a member keeps the list's presence, length and user ids |
| StagedChangesets.FlattenIfPossible | OUIIM/Classes/OIMUIChat/Helper/DifferenceKit+Extension.swift:102-111 | flattening never lengthens the stages and keeps the final data |
| StagedChangesets.FlattenIfPossibleSpec | OUIIM/Classes/OIMUIChat/Helper/DifferenceKit+Extension.swift:102-111 | the stages change exactly when flattenable, into one stage with the second data, the first deletes and the second inserts |
| StagedChangesets.FlattenIfPossibleIdempotent | OUIIM/Classes/OIMUIChat/Helper/DifferenceKit+Extension.swift:102-111 | flattening twice is flattening once |
| StagedChangesets.SectionMoves | OUIIM/Classes/OIMUIChat/Helper/DifferenceKit+Extension.swift:63-65 | one section move per moved section, in order |
| StagedChangesets.ItemMoves | OUIIM/Classes/OIMUIChat/Helper/DifferenceKit+Extension.swift:85-87 | one item move per moved element, in order |
| StagedChangesets.SectionUpdates | OUIIM/Classes/OIMUIChat/Helper/DifferenceKit+Extension.swift:51-65 | the loop emits exactly the section operations of the stage |
| StagedChangesets.SectionMovesLoop | OUIIM/Classes/OIMUIChat/Helper/DifferenceKit+Extension.swift:63-65 | one section move per pair, in the pairs' order |
| StagedChangesets.ElementUpdates | OUIIM/Classes/OIMUIChat/Helper/DifferenceKit+Extension.swift:67-87 | the loop emits exactly the element operations of the stage |
| StagedChangesets.ItemMovesLoop | OUIIM/Classes/OIMUIChat/Helper/DifferenceKit+Extension.swift:85-87 | one item move per pair, in the pairs' order |
| StagedChangesets.BatchUpdates | OUIIM/Classes/OIMUIChat/Helper/DifferenceKit+Extension.swift:47-88 | the batch emits exactly the stage's operations |
| StagedChangesets.AppendOrdered | OUIIM/Classes/OIMUIChat/Helper/DifferenceKit+Extension.swift:47-88 | ordered runs in consecutive rank ranges concatenate to an ordered run |
| StagedChangesets.SectionOpsOrdered | OUIIM/Classes/OIMUIChat/Helper/DifferenceKit+Extension.swift:51-65 | section operations come as deletes, inserts, reloads, then moves |
| StagedChangesets.ElementOpsOrdered | OUIIM/Classes/OIMUIChat/Helper/DifferenceKit+Extension.swift:67-87 | element operations come as deletes, inserts, reloads, then moves |
| StagedChangesets.BatchOpsOrder | OUIIM/Classes/OIMUIChat/Helper/DifferenceKit+Extension.swift:47-88 | every section operation precedes every element operation, each in the fixed order |
| StagedChangesets.NotInRankedRun | OUIIM/Classes/OIMUIChat/Helper/DifferenceKit+Extension.swift:47-88 | an operation outside a run's rank range is not in it |
| StagedChangesets.SectionMovesPresent | OUIIM/Classes/OIMUIChat/Helper/DifferenceKit+Extension.swift:63-65 | every section move is emitted |
| StagedChangesets.ItemMovesPresent | OUIIM/Classes/OIMUIChat/Helper/DifferenceKit+Extension.swift:85-87 | every element move is emitted |
| StagedChangesets.SectionOpsPresence | OUIIM/Classes/OIMUIChat/Helper/DifferenceKit+Extension.swift:51-65 | delete, insert and reload of sections appear exactly when their lists are non-empty; every move appears |
| StagedChangesets.ElementOpsPresence | OUIIM/Classes/OIMUIChat/Helper/DifferenceKit+Extension.swift:67-87 | delete, insert and reload of items appear exactly when their lists are non-empty; every move appears |
| StagedChangesets.Reload | OUIIM/Classes/OIMUIChat/Helper/DifferenceKit+Extension.swift:8-93 | the loop produces exactly the reload trace: full reload without a window or on interruption, else one batch per stage, then the completion |
| StagedChangesets.FallBack | OUIIM/Classes/OIMUIChat/Helper/DifferenceKit+Extension.swift:15-23 | sets the final data, reloads everything through the interrupted-reload hook when there is one, and reports failure to the completion |
| StagedChangesets.Batches | OUIIM/Classes/OIMUIChat/Helper/DifferenceKit+Extension.swift:35-88 | one batch update per stage, in order |
| StagedChangesets.ReplayFromShape | OUIIM/Classes/OIMUIChat/Helper/DifferenceKit+Extension.swift:35-93 | the replay is the batches up to the first interrupting stage, then a full reload with failure, or all batches then success |
| StagedChangesets.ReloadWithoutWindow | OUIIM/Classes/OIMUIChat/Helper/DifferenceKit+Extension.swift:15-24 | without a window the view is set to the final data and reloaded, and the completion reports failure |
| StagedChangesets.ReloadInterrupted | OUIIM/Classes/OIMUIChat/Helper/DifferenceKit+Extension.swift:35-45 | an interrupting stage ends the batches with a full reload of the final data and a failure |
| StagedChangesets.ReloadUninterrupted | OUIIM/Classes/OIMUIChat/Helper/DifferenceKit+Extension.swift:47-92 | without interruption every stage is batched and the completion reports success |
| StagedChangesets.LastDataSetAppendQuiet | OUIIM/Classes/OIMUIChat/Helper/DifferenceKit+Extension.swift:8-93 | appending steps that set no data keeps the last data |
| StagedChangesets.FullReloadEnds | OUIIM/Classes/OIMUIChat/Helper/DifferenceKit+Extension.swift:15-45 | a full reload ends on the final data and completes once at the end |
| StagedChangesets.BatchesThenEnds | OUIIM/Classes/OIMUIChat/Helper/DifferenceKit+Extension.swift:47-92 | batches before a tail that completes once keep completing once at the end |
| StagedChangesets.ReloadEndsOnFinalData | OUIIM/Classes/OIMUIChat/Helper/DifferenceKit+Extension.swift:8-93 | every reload leaves the view on the last stage's data and runs the completion exactly once, at the end |
| StagedChangesets.LastDataSetAppendPrefix | OUIIM/Classes/OIMUIChat/Helper/DifferenceKit+Extension.swift:8-93 | a suffix that sets data decides the last data |
| StagedChangesets.FirstInterrupt | OUIIM/Classes/OIMUIChat/Helper/DifferenceKit+Extension.swift:35-45 | the first interrupting stage, or the count when none interrupts |
| ChatDataSource.StatusIndicatorOnlyWhileSending | OUIIM/Classes/OIMUIChat/View/DataSource/DefaultChatCollectionDataSource.swift:374-385 | the indicator shows iff the status is sending |
| ChatDataSource.CellViewFor | OUIIM/Classes/OIMUIChat/View/DataSource/DefaultChatCollectionDataSource.swift:469-531 | each row picks its cell: text or notice by text kind, image, custom, typing, titles for date and system rows, and a trap for links and empty payloads; message cells carry the message's selection flag (notices never selected) and never enable selection, as the default argument of `setupMessageContainerView` (line 343) is false |
| ChatDataSource.OnTapMessage | OUIIM/Classes/OIMUIChat/View/DataSource/DefaultChatCollectionDataSource.swift:101-118 | the tap is declined exactly while editing with an index path; the item is selected exactly with an index path while editing or for an empty payload; nothing happens exactly for a non-empty payload tapped through its index path outside editing |
| ChatDataSource.DefaultChatCollectionDataSource.constructor | OUIIM/Classes/OIMUIChat/View/DataSource/DefaultChatCollectionDataSource.swift:35-53 | a data source starts with no sections and no media views |
| ChatDataSource.DefaultChatCollectionDataSource.SetSections | OUIIM/Classes/OIMUIChat/View/DataSource/DefaultChatCollectionDataSource.swift:35-39 | assigning sections keeps the previous ones as the old sections |
| ChatDataSource.DefaultChatCollectionDataSource.NumberOfSections | OUIIM/Classes/OIMUIChat/View/DataSource/DefaultChatCollectionDataSource.swift:461-463 | one collection section per section |
| ChatDataSource.DefaultChatCollectionDataSource.NumberOfItems | OUIIM/Classes/OIMUIChat/View/DataSource/DefaultChatCollectionDataSource.swift:465-467 | one item per cell of the section |
| ChatDataSource.DefaultChatCollectionDataSource.AlignmentForItem | OUIIM/Classes/OIMUIChat/View/DataSource/DefaultChatCollectionDataSource.swift:580-599 | headers centre and footers trail; date and system rows centre, messages span the width, incoming groups and typing lead, outgoing groups trail |
| ChatDataSource.DefaultChatCollectionDataSource.CellForItem | OUIIM/Classes/OIMUIChat/View/DataSource/DefaultChatCollectionDataSource.swift:469-531 | the cell is the row's view (selection never enabled), and an image cell records its media view |
| ChatDataSource.AlignmentIncomingIff | OUIIM/Classes/OIMUIChat/View/DataSource/DefaultChatCollectionDataSource.swift:580-599 | an item counts as incoming exactly when it is the typing indicator or an incoming message group |
| ChatDataSource.HeadersAndFootersAlwaysPresented | OUIIM/Classes/OIMUIChat/View/DataSource/DefaultChatCollectionDataSource.swift:546-552 | every section presents a header and a footer |
| ChatView.TrimBounds | OUIIM/Classes/OIMUIChat/ChatViewController.swift:1020 | the bounds cut off only whitespace at both ends, and stop at non-whitespace |
| ChatView.TrimEnd | OUIIM/Classes/OIMUIChat/ChatViewController.swift:1020 | the end of the draft without trailing whitespace |
| ChatView.TrimEmptyIff | OUIIM/Classes/OIMUIChat/ChatViewController.swift:1020-1029 | the trimmed draft is empty exactly when the draft is all whitespace |
| ChatView.ChatViewController.constructor | OUIIM/Classes/OIMUIChat/ChatViewController.swift:19-45 | no interface or controller actions, interface actions ignored until the first load |
| ChatView.ChatViewController.ViewDidLoad | OUIIM/Classes/OIMUIChat/ChatViewController.swift:198-215 | the view is loaded, in or out of a window |
| ChatView.ChatViewController.RemoveInterfaceAction | OUIIM/Classes/OIMUIChat/ChatViewController.swift:808-821 | removing the last interface action releases every delayed update, once |
| ChatView.ChatViewController.RunCompletion | OUIIM/Classes/OIMUIChat/ChatViewController.swift:326-336 | a completion clears its loading flag; the initial load also stops ignoring interface actions |
| ChatView.ChatViewController.ApplySetData | OUIIM/Classes/OIMUIChat/ChatViewController.swift:863-907 | the data source ends on the last data the reload set |
| ChatView.ChatViewController.FullReloadUpdate | OUIIM/Classes/OIMUIChat/ChatViewController.swift:825-861 | the first-load path sets the final data, reloads once, runs the completion and clears the isolation and updating flags |
| ChatView.ChatViewController.StagedUpdate | OUIIM/Classes/OIMUIChat/ChatViewController.swift:863-907 | the incremental path replays the staged reload, interrupting on inserted sections, and ends on the final data with the completion run once |
| ChatView.ChatViewController.ReplayStages | OUIIM/Classes/OIMUIChat/ChatViewController.swift:876-907 | the view receives exactly the staged reload trace that interrupts on inserted sections, and the data source ends on the final snapshot |
| ChatView.ChatViewController.ProcessUpdates | OUIIM/Classes/OIMUIChat/ChatViewController.swift:802-917 | before load the sections are set directly; while interface actions are busy the update waits; otherwise it goes through the full or staged path |
| ChatView.ChatViewController.LoadInitialMessages | OUIIM/Classes/OIMUIChat/ChatViewController.swift:326-336 | the initial load starts only if not already loading, and marks it loading |
| ChatView.ChatViewController.InitialMessagesLoaded | OUIIM/Classes/OIMUIChat/ChatViewController.swift:326-336 | the loaded messages are processed in isolation without animation, and the load flag is cleared |
| ChatView.ChatViewController.ShouldScrollToTop | OUIIM/Classes/OIMUIChat/ChatViewController.swift:484-497 | scrolling to top is allowed exactly when the content height is positive and none of showing-accessory, showing-preview, scrolling-to-top or scrolling-to-bottom is running; when allowed it adds scrolling-to-top, otherwise the actions are unchanged |
| ChatView.ChatViewController.LoadPreviousMessages | OUIIM/Classes/OIMUIChat/ChatViewController.swift:573-590 | loading older messages is marked in progress |
| ChatView.ChatViewController.PreviousMessagesLoaded | OUIIM/Classes/OIMUIChat/ChatViewController.swift:573-590 | older messages are processed without isolation, and the flag is cleared |
| ChatView.ChatViewController.DidScrollToTop | OUIIM/Classes/OIMUIChat/ChatViewController.swift:499-506 | reaching the top loads older messages unless a load is under way, and ends the scroll-to-top action |
| ChatView.ChatViewController.SendText | OUIIM/Classes/OIMUIChat/ChatViewController.swift:1019-1038 | a blank draft sends nothing and clears the sending flag; any other draft sends its trimmed text |
| ChatView.ChatViewController.MessageSent | OUIIM/Classes/OIMUIChat/ChatViewController.swift:991-999 | after sending, sending-message is always removed from the interface actions; with the view not loaded the data source takes the sections; with other interface actions running the update is queued behind them; otherwise the new sections are shown |
| GifFrames.TRem | 3rd/ZLPhotoBrowser/Sources/Extensions/UIImage+ZLPhotoBrowser.swift:131-151 | Swift's truncating remainder: smaller than the divisor in magnitude, with the dividend's sign |
| GifFrames.GcdIsGreatestCommonDivisor | 3rd/ZLPhotoBrowser/Sources/Extensions/UIImage+ZLPhotoBrowser.swift:131-151 | Euclid's gcd divides both numbers and every common divisor divides it |
| GifFrames.GcdComm | 3rd/ZLPhotoBrowser/Sources/Extensions/UIImage+ZLPhotoBrowser.swift:131-151 | the gcd does not depend on argument order, as the swap in the source assumes |
| GifFrames.GcdSelf | 3rd/ZLPhotoBrowser/Sources/Extensions/UIImage+ZLPhotoBrowser.swift:131-151 | the gcd of a number with itself is the number |
| GifFrames.GcdZeroIff | 3rd/ZLPhotoBrowser/Sources/Extensions/UIImage+ZLPhotoBrowser.swift:117-151 | the gcd is zero exactly when both numbers are |
| GifFrames.GcdPairOutcome | 3rd/ZLPhotoBrowser/Sources/Extensions/UIImage+ZLPhotoBrowser.swift:131-151 | the pair gcd as written: a missing side gives the other side or 0; it traps exactly when the smaller number is 0; otherwise its magnitude is the gcd |
| GifFrames.EuclidLoop | 3rd/ZLPhotoBrowser/Sources/Extensions/UIImage+ZLPhotoBrowser.swift:139-150 | the remainder loop ends with a value whose magnitude is the gcd |
| GifFrames.GcdForPairAsWritten | 3rd/ZLPhotoBrowser/Sources/Extensions/UIImage+ZLPhotoBrowser.swift:131-151 | the loop as written computes the pair outcome, trap included |
| GifFrames.GcdForPairTrapsOnZero | 3rd/ZLPhotoBrowser/Sources/Extensions/UIImage+ZLPhotoBrowser.swift:131-151 | a zero duration beside a positive one (0, 40) traps, though the gcd is 40 |
| GifFrames.GcdForPair | 3rd/ZLPhotoBrowser/Sources/Extensions/UIImage+ZLPhotoBrowser.swift:131-151 | the corrected loop: a missing side gives the other, else the magnitude is the gcd, and non-negative inputs give the gcd itself |
| GifFrames.GcdAllIsGreatestCommonDivisor | 3rd/ZLPhotoBrowser/Sources/Extensions/UIImage+ZLPhotoBrowser.swift:117-129 | the gcd of all durations is zero only when all are, divides each, and is divided by every common divisor |
| GifFrames.DividesTransitive | 3rd/ZLPhotoBrowser/Sources/Extensions/UIImage+ZLPhotoBrowser.swift:117-129 | a divisor of a divisor divides |
| GifFrames.GcdForArray | 3rd/ZLPhotoBrowser/Sources/Extensions/UIImage+ZLPhotoBrowser.swift:117-129 | with the corrected pair gcd: an empty list gives 1; a list of non-negative durations gives their greatest common divisor |
| GifFrames.GcdForArrayAsWritten | 3rd/ZLPhotoBrowser/Sources/Extensions/UIImage+ZLPhotoBrowser.swift:117-129 | the loop as written computes the as-written fold, stopping at the first trap of the pair gcd |
| GifFrames.GcdFoldAsWrittenTraps | 3rd/ZLPhotoBrowser/Sources/Extensions/UIImage+ZLPhotoBrowser.swift:117-151 | the fold as written traps exactly when it meets a zero, the starting value included, and otherwise stays positive |
| GifFrames.GcdForArrayTrapsIffZero | 3rd/ZLPhotoBrowser/Sources/Extensions/UIImage+ZLPhotoBrowser.swift:117-151 | `gcdForArray` as written traps exactly when some duration is 0, so [40, 0] traps though its gcd is 40 |
| GifFrames.FrameDurationFromInfo | 3rd/ZLPhotoBrowser/Sources/Extensions/UIImage+ZLPhotoBrowser.swift:103-115 | a frame lasts its chosen delay if above 0.011 s, otherwise 0.1 s |
| GifFrames.FrameDurationAt | 3rd/ZLPhotoBrowser/Sources/Extensions/UIImage+ZLPhotoBrowser.swift:95-101 | a frame whose properties cannot be read lasts 0 s; otherwise a positive duration |
| GifFrames.SourceIndexInRange | 3rd/ZLPhotoBrowser/Sources/Extensions/UIImage+ZLPhotoBrowser.swift:51-58 | the sampled source index is monotone, within the frame count, and the identity when no frames are dropped |
| GifFrames.ScaledIndexBelow | 3rd/ZLPhotoBrowser/Sources/Extensions/UIImage+ZLPhotoBrowser.swift:58 | a scaled index stays below the frame count |
| GifFrames.Repeat | 3rd/ZLPhotoBrowser/Sources/Extensions/UIImage+ZLPhotoBrowser.swift:87-89 | n copies of a frame |
| GifFrames.ExpandTiming | 3rd/ZLPhotoBrowser/Sources/Extensions/UIImage+ZLPhotoBrowser.swift:79-89 | the expanded frames times the gcd equal the total duration |
| GifFrames.ExpandFrames | 3rd/ZLPhotoBrowser/Sources/Extensions/UIImage+ZLPhotoBrowser.swift:71-90 | with the corrected gcd: all-zero durations divide by zero; otherwise each frame is repeated duration/gcd times and the frames fill the total duration |
| GifFrames.TotalDuration | 3rd/ZLPhotoBrowser/Sources/Extensions/UIImage+ZLPhotoBrowser.swift:71-77 | the total is the sum of the frame durations |
| GifFrames.RepeatFrames | 3rd/ZLPhotoBrowser/Sources/Extensions/UIImage+ZLPhotoBrowser.swift:82-90 | each image is repeated its duration divided by the gcd times, in frame order |
| GifFrames.DurationScale | 3rd/ZLPhotoBrowser/Sources/Extensions/UIImage+ZLPhotoBrowser.swift:51-64 | the frame-duration scale lies between 1 and 3 |
| GifFrames.DurationMs | 3rd/ZLPhotoBrowser/Sources/Extensions/UIImage+ZLPhotoBrowser.swift:64-66 | milliseconds are never negative and are zero exactly for durations under a millisecond |
| GifFrames.SelectedDurationZeroIff | 3rd/ZLPhotoBrowser/Sources/Extensions/UIImage+ZLPhotoBrowser.swift:64-66 | a selected frame lasts 0 ms exactly when its properties are unreadable, and at least 11 ms otherwise |
| GifFrames.SelectedDurations | 3rd/ZLPhotoBrowser/Sources/Extensions/UIImage+ZLPhotoBrowser.swift:57-69 | one duration per selected frame |
| GifFrames.SelectedImages | 3rd/ZLPhotoBrowser/Sources/Extensions/UIImage+ZLPhotoBrowser.swift:57-69 | one decoded image per selected frame |
| GifFrames.AnimateGif | 3rd/ZLPhotoBrowser/Sources/Extensions/UIImage+ZLPhotoBrowser.swift:33-93 | with the corrected gcd: a static image without a source or with at most one frame; none when a selected frame fails to decode; a division by zero only when no selected frame has readable properties; otherwise the expanded frames with matching total duration |
| GifFrames.AnimateGifTrapsAsWritten | 3rd/ZLPhotoBrowser/Sources/Extensions/UIImage+ZLPhotoBrowser.swift:57-79 | as written, the gcd of the selected durations traps exactly when some selected frame's properties cannot be read |
| GifFrames.Truncate | 3rd/ZLPhotoBrowser/Sources/Extensions/UIImage+ZLPhotoBrowser.swift:396-405 | `Int(_:)` of a float truncates toward zero |
| GifFrames.ClipAngle | 3rd/ZLPhotoBrowser/Sources/Extensions/UIImage+ZLPhotoBrowser.swift:396-405 | the normalised angle lies in (-360, 0] and is congruent to the truncated angle |
| GifFrames.ClipRotationByQuarterTurns | 3rd/ZLPhotoBrowser/Sources/Extensions/UIImage+ZLPhotoBrowser.swift:396-405 | the image turns left, down or right exactly for 270, 180 or 90 degrees modulo 360, and is left as is otherwise |
| GifFrames.HasAlphaChannelIff | 3rd/ZLPhotoBrowser/Sources/Extensions/UIImage+ZLPhotoBrowser.swift:446-452 | alpha is present exactly for the four premultiplied/last/first raw values, not for alpha-only or missing info |
| Contacts.StrLessIsStrictTotalOrder | OUICoreView/Classes/ViewController/SelectContacts/SelectContactsViewModel.swift:135-143 | string `<` is a strict total order |
| Contacts.KeyBeforeIsStrictTotalOrder | OUICoreView/Classes/ViewController/SelectContacts/SelectContactsViewModel.swift:135-143 | the key order is a strict total order, so the sort is well defined |
| Contacts.InsertKey | OUICoreView/Classes/ViewController/SelectContacts/SelectContactsViewModel.swift:135-143 | inserting a new key keeps the keys sorted and adds exactly it |
| Contacts.SortKeys | OUICoreView/Classes/ViewController/SelectContacts/SelectContactsViewModel.swift:135-143 | the sorted keys are sorted and hold exactly the given keys |
| Contacts.Bucket | OUICoreView/Classes/ViewController/SelectContacts/SelectContactsViewModel.swift:123-131 | a section holds only contacts with its letter |
| Contacts.SectionedFilesEveryContact | OUICoreView/Classes/ViewController/SelectContacts/SelectContactsViewModel.swift:119-153 | every contact with a letter is in its letter's section, and one without a letter is in none |
| Contacts.BucketHoldsMatches | OUICoreView/Classes/ViewController/SelectContacts/SelectContactsViewModel.swift:123-131 | every contact with the letter is in its section |
| Contacts.SectionedIsUnique | OUICoreView/Classes/ViewController/SelectContacts/SelectContactsViewModel.swift:119-153 | the letters and sections are determined by the contacts |
| Contacts.SortedWithSameKeysAreEqual | OUICoreView/Classes/ViewController/SelectContacts/SelectContactsViewModel.swift:135-143 | two sorted key lists with the same keys are equal |
| Contacts.TailMembers | OUICoreView/Classes/ViewController/SelectContacts/SelectContactsViewModel.swift:135-143 | the tail of a list without repeats is the list minus its head |
| Contacts.FriendContacts | OUICoreView/Classes/ViewController/SelectContacts/SelectContactsViewModel.swift:50 | one user contact per friend, with its id and nickname |
| Contacts.GroupContacts | OUICoreView/Classes/ViewController/SelectContacts/SelectContactsViewModel.swift:71 | one group contact per group, with its id and name |
| Contacts.OtherMembers | OUICoreView/Classes/ViewController/SelectContacts/SelectContactsViewModel.swift:83-89 | the members other than me |
| Contacts.MemberContacts | OUICoreView/Classes/ViewController/SelectContacts/SelectContactsViewModel.swift:83-89 | one user contact per other member |
| Contacts.Page | OUICoreView/Classes/ViewController/SelectContacts/SelectContactsViewModel.swift:45-49 | a page holds at most the page size of friends |
| Contacts.FirstIndexWithId | OUICoreView/Classes/ViewController/SelectContacts/SelectContactsViewModel.swift:104-106 | the first contact with the id, or the end |
| Contacts.SelectContactsViewModel.constructor | OUICoreView/Classes/ViewController/SelectContacts/SelectContactsViewModel.swift:9-39 | the view model starts on the friends tab with nothing loaded |
| Contacts.SelectContactsViewModel.DivideContactsInSection | OUICoreView/Classes/ViewController/SelectContacts/SelectContactsViewModel.swift:119-153 | the letters are the sorted keys and each section holds that letter's contacts in order |
| Contacts.SelectContactsViewModel.GetContactIndexPath | OUICoreView/Classes/ViewController/SelectContacts/SelectContactsViewModel.swift:108-117 | the first position of the contact in the sections, row-major, or none exactly when absent |
| Contacts.SelectContactsViewModel.GetContactAt | OUICoreView/Classes/ViewController/SelectContacts/SelectContactsViewModel.swift:95-102 | the contacts at the given positions |
| Contacts.SelectContactsViewModel.GetContact | OUICoreView/Classes/ViewController/SelectContacts/SelectContactsViewModel.swift:104-106 | the first contact with the id, or none exactly when no contact has it |
| Contacts.SelectContactsViewModel.GetMyFriendList | OUICoreView/Classes/ViewController/SelectContacts/SelectContactsViewModel.swift:41-66 | paging by 1000 from offset 0 loads every friend once, sectioned, and stops after the first short page |
| Contacts.SelectContactsViewModel.GetGroups | OUICoreView/Classes/ViewController/SelectContacts/SelectContactsViewModel.swift:68-77 | the groups become the contacts and are sectioned only on the undefined tab |
| Contacts.SelectContactsViewModel.GetGroupMemberList | OUICoreView/Classes/ViewController/SelectContacts/SelectContactsViewModel.swift:79-93 | the other members become the contacts, sectioned |
| Contacts.SelectContactsViewModel.SelectTab | OUICoreView/Classes/ViewController/SelectContacts/SelectContactsViewModel.swift:22-39 | each tab sections its own list; the undefined tab leaves the sections |
| Contacts.CategorizeByInitial | OUICoreView/Classes/ViewController/SelectContacts/SelectContactsViewModel.swift:119-131 | the loop collects each letter once, first-seen order, with its contacts |
| Contacts.FileContact | OUICoreView/Classes/ViewController/SelectContacts/SelectContactsViewModel.swift:123-131 | filing one more contact keeps every bucket equal to the contacts of its key so far and the key list to the distinct keys in first-seen order |
| Contacts.SectionsInOrder | OUICoreView/Classes/ViewController/SelectContacts/SelectContactsViewModel.swift:145-147 | one section per sorted key, holding exactly that key's contacts |
| Contacts.BucketStep | OUICoreView/Classes/ViewController/SelectContacts/SelectContactsViewModel.swift:123-131 | one more contact extends exactly its letter's section |
| Contacts.BucketKeyOccurs | OUICoreView/Classes/ViewController/SelectContacts/SelectContactsViewModel.swift:123-131 | a non-empty section's letter is some contact's letter |
| Contacts.KeysStep | OUICoreView/Classes/ViewController/SelectContacts/SelectContactsViewModel.swift:123-131 | one more contact adds at most its own letter |
| AudioPlayer.Resume | OUIIM/Classes/OIMUIChat/View/Cell/AudioView/AudioPlayController.swift:24-28 | resuming keeps the loaded url and runs it |
| AudioPlayer.Halt | OUIIM/Classes/OIMUIChat/View/Cell/AudioView/AudioPlayController.swift:42-45 | halting keeps the loaded url and stops it |
| AudioPlayer.FinishNotice | OUIIM/Classes/OIMUIChat/View/Cell/AudioView/AudioPlayController.swift:75-79 | a notice is sent exactly when something plays and a handler is set |
| AudioPlayer.AudioPlayController.constructor | OUIIM/Classes/OIMUIChat/View/Cell/AudioView/AudioPlayController.swift:8-13 | nothing playing, paused or focused |
| AudioPlayer.AudioPlayController.SetFinishHandler | OUIIM/Classes/OIMUIChat/View/Cell/AudioView/AudioPlayController.swift:8 | the finish handler is set or cleared |
| AudioPlayer.AudioPlayController.Focus | OUIIM/Classes/OIMUIChat/View/Cell/AudioView/AudioPlayController.swift:20-22 | exactly that message has focus |
| AudioPlayer.AudioPlayController.Play | OUIIM/Classes/OIMUIChat/View/Cell/AudioView/AudioPlayController.swift:24-32 | the paused message resumes; another message becomes the only one playing, with the pause cleared |
| AudioPlayer.AudioPlayController.PlaySound | OUIIM/Classes/OIMUIChat/View/Cell/AudioView/AudioPlayController.swift:54-68 | the player is replaced only when the url opens |
| AudioPlayer.AudioPlayController.Pause | OUIIM/Classes/OIMUIChat/View/Cell/AudioView/AudioPlayController.swift:42-45 | the message is paused and the player halts |
| AudioPlayer.AudioPlayController.Stop | OUIIM/Classes/OIMUIChat/View/Cell/AudioView/AudioPlayController.swift:70-73 | the playing message is notified and the player halts |
| AudioPlayer.AudioPlayController.NoticeFinishStatus | OUIIM/Classes/OIMUIChat/View/Cell/AudioView/AudioPlayController.swift:75-79 | the handler hears the playing id |
| AudioPlayer.AudioPlayController.Reset | OUIIM/Classes/OIMUIChat/View/Cell/AudioView/AudioPlayController.swift:47-52 | stops, then nothing is playing, paused or focused |
| AudioPlayer.AudioPlayController.AudioPlayerDidFinishPlaying | OUIIM/Classes/OIMUIChat/View/Cell/AudioView/AudioPlayController.swift:83-86 | a finished message is notified twice, then everything is reset |
| Decimal.DigitChar | Example/OpenIMSDKUIKit/Pages/MainTabViewController.swift:41 | the digit character of a value below ten |
| Decimal.NatToString | Example/OpenIMSDKUIKit/Pages/MainTabViewController.swift:41 | the decimal rendering is all digits |
| Decimal.IntToString | Example/OpenIMSDKUIKit/Pages/MainTabViewController.swift:41 | `String(_:)`: digits, with a leading minus sign for negatives |
| Decimal.NatToStringValue | Example/OpenIMSDKUIKit/Pages/MainTabViewController.swift:41 | the rendering reads back as the number, without leading zeros, with two digits at most below 100 |
| Decimal.NatToStringInjective | Example/OpenIMSDKUIKit/Pages/MainTabViewController.swift:41 | different counts render differently |
| Endpoints.Split | Example/OpenIMSDKUIKit/AppDelegate.swift:147-155 | splitting gives at least one piece, none containing the separator |
| Endpoints.JoinSplit | Example/OpenIMSDKUIKit/AppDelegate.swift:147-155 | joining the pieces restores the string |
| Endpoints.SplitJoin | Example/OpenIMSDKUIKit/AppDelegate.swift:147-155 | splitting joined separator-free pieces restores them |
| Endpoints.SplitWithoutSep | Example/OpenIMSDKUIKit/AppDelegate.swift:147-155 | a string without the separator is one piece |
| Endpoints.SplitAfterPiece | Example/OpenIMSDKUIKit/AppDelegate.swift:147-155 | a leading piece and separator split off as the first piece |
| Endpoints.OctetIff | Example/OpenIMSDKUIKit/AppDelegate.swift:148 | an octet is one to three digits of value at most 255, leading zeros allowed |
| Endpoints.ThreeDigitOctet | Example/OpenIMSDKUIKit/AppDelegate.swift:148 | three digits match one of the octet alternatives exactly when their value is at most 255 |
| Endpoints.IPv4Iff | Example/OpenIMSDKUIKit/AppDelegate.swift:148 | IPv4 exactly when the host is four octets joined by dots |
| Endpoints.FourOctetsAreIPv4 | Example/OpenIMSDKUIKit/AppDelegate.swift:148 | four octets joined by dots are accepted |
| Endpoints.JoinFour | Example/OpenIMSDKUIKit/AppDelegate.swift:148 | joining four pieces puts the separator between each |
| Endpoints.OctetHasNoDot | Example/OpenIMSDKUIKit/AppDelegate.swift:148 | an octet holds no dot |
| Endpoints.IPv6FullFormOnly | Example/OpenIMSDKUIKit/AppDelegate.swift:149 | only the full form is accepted: at least 15 characters, no dot, no "::" |
| Endpoints.FullFormJoin | Example/OpenIMSDKUIKit/AppDelegate.swift:149 | hex groups joined by colons contain no "::" |
| Endpoints.AddressesSecureIffDomain | Example/OpenIMSDKUIKit/AppDelegate.swift:84-98 | every address uses https/wss exactly when the host is not an IP, and ends in its port exactly when it is |
| Endpoints.SuffixLast | Example/OpenIMSDKUIKit/AppDelegate.swift:84-98 | a string ends in the last character of its suffix |
| Endpoints.DefaultHostHasNoSeparator | Example/OpenIMSDKUIKit/AppDelegate.swift:20 | the placeholder host contains no dot or colon |
| Endpoints.DefaultHostIsDomain | Example/OpenIMSDKUIKit/AppDelegate.swift:20 | the placeholder host is treated as a domain |
| ScreenLock.RowsFor | Example/OpenIMSDKUIKit/Pages/Mine/ScreenLock/ScreenLockSettingViewController.swift:107-115 | the switch row always comes first; the biometrics row shows exactly when the lock is on |
| ScreenLock.ScreenLockSettingViewController.constructor | Example/OpenIMSDKUIKit/Pages/Mine/ScreenLock/ScreenLockSettingViewController.swift:33-39 | one row, both switches off, biometrics unavailable, three unlock attempts |
| ScreenLock.ScreenLockSettingViewController.ShowScreenLock | Example/OpenIMSDKUIKit/Pages/Mine/ScreenLock/ScreenLockSettingViewController.swift:9-29 | nothing without a user; otherwise the failure handler is set and the lock screen shows exactly when the stored lock is on |
| ScreenLock.ScreenLockSettingViewController.SetupData | Example/OpenIMSDKUIKit/Pages/Mine/ScreenLock/ScreenLockSettingViewController.swift:81-94 | the switches follow the store; biometrics stay off where unavailable; all rows show when the lock is on |
| ScreenLock.ScreenLockSettingViewController.ViewWillAppear | Example/OpenIMSDKUIKit/Pages/Mine/ScreenLock/ScreenLockSettingViewController.swift:50-71 | without a password the lock is switched off, one row and persisted off; with one, all rows show when the stored lock is on |
| ScreenLock.ScreenLockSettingViewController.ReloadEnablePasswordLock | Example/OpenIMSDKUIKit/Pages/Mine/ScreenLock/ScreenLockSettingViewController.swift:107-115 | the rows and the stored flag follow the switch |
| ScreenLock.ScreenLockSettingViewController.SetPasswordLock | Example/OpenIMSDKUIKit/Pages/Mine/ScreenLock/ScreenLockSettingViewController.swift:131-141 | the lock screen opens to change a set password or to create one |
| ScreenLock.ScreenLockSettingViewController.ToggleEnablePasswordLock | Example/OpenIMSDKUIKit/Pages/Mine/ScreenLock/ScreenLockSettingViewController.swift:96-105 | the switch flips; without a password the create screen opens and nothing else changes; with one, the rows and store follow and the password is forgotten |
| ScreenLock.ScreenLockSettingViewController.ToggleEnableBiometrics | Example/OpenIMSDKUIKit/Pages/Mine/ScreenLock/ScreenLockSettingViewController.swift:117-129 | the biometrics switch flips and persists only where biometrics are available |
| ScreenLock.ScreenLockSettingViewController.NumberOfRows | Example/OpenIMSDKUIKit/Pages/Mine/ScreenLock/ScreenLockSettingViewController.swift:143-145 | one or two rows, two exactly when the biometrics row shows |
| ScreenLock.ScreenLockSettingViewController.SwitchIsOn | Example/OpenIMSDKUIKit/Pages/Mine/ScreenLock/ScreenLockSettingViewController.swift:147-170 | each row's switch shows its own setting |
| ScreenLock.ScreenLockSettingViewController.UnlockWasSuccessful | Example/OpenIMSDKUIKit/Pages/Mine/ScreenLock/ScreenLockSettingViewController.swift:246-249 | a successful entry applies the switch and stores the pincode as the password |
| ScreenLock.ScreenLockSettingViewController.UnlockWasFailure | Example/OpenIMSDKUIKit/Pages/Mine/ScreenLock/ScreenLockSettingViewController.swift:251-258 | each failure uses one attempt; at none left the password is forgotten and the failure handler runs |
| ScreenLock.ScreenLockSettingViewController.UnlockWasCancelled | Example/OpenIMSDKUIKit/Pages/Mine/ScreenLock/ScreenLockSettingViewController.swift:260-263 | cancelling switches the lock off, with one row, persisted |
| InputBar.AllowSendImageTypeIsWhitelist | OUIIM/Classes/OIMUIChat/View/InputView/CoustomInputBarAccessoryView.swift:104-113 | exactly eight identifiers are allowed: png, jpeg, gif, bmp, webp, mpeg-4, quicktime and heic |
| InputBar.AssetBatch | OUIIM/Classes/OIMUIChat/View/InputView/CoustomInputBarAccessoryView.swift:63-92 | an image asset sends its file, except a GIF whose data is missing; other assets send nothing |
| InputBar.PickedBatches | OUIIM/Classes/OIMUIChat/View/InputView/CoustomInputBarAccessoryView.swift:63-92 | at most one batch per asset |
| InputBar.PlainImageIsSent | OUIIM/Classes/OIMUIChat/View/InputView/CoustomInputBarAccessoryView.swift:63-92 | every non-GIF image picked is sent |
| InputBar.PickedBatchesStep | OUIIM/Classes/OIMUIChat/View/InputView/CoustomInputBarAccessoryView.swift:67-91 | one more asset adds exactly its own batch |
| InputBar.PickedBatchesShape | OUIIM/Classes/OIMUIChat/View/InputView/CoustomInputBarAccessoryView.swift:63-92 | every batch holds one attachment, and without image assets nothing is sent |
| InputBar.CoustomInputBarAccessoryView.constructor | OUIIM/Classes/OIMUIChat/View/InputView/CoustomInputBarAccessoryView.swift:142-145 | the right stack shows "more", nothing selected, input enabled |
| InputBar.CoustomInputBarAccessoryView.CanSelect | OUIIM/Classes/OIMUIChat/View/InputView/CoustomInputBarAccessoryView.swift:39-61 | an asset is selectable exactly when some resource has an allowed type; otherwise an alert shows |
| InputBar.CoustomInputBarAccessoryView.ToggleMoreButtonStatus | OUIIM/Classes/OIMUIChat/View/InputView/CoustomInputBarAccessoryView.swift:192-198 | the right stack shows "more" or "send" as asked |
| InputBar.CoustomInputBarAccessoryView.InputTextViewDidChange | OUIIM/Classes/OIMUIChat/View/InputView/CoustomInputBarAccessoryView.swift:281-291 | empty text shows "more", other text shows "send", and the delegate hears of the change |
| InputBar.CoustomInputBarAccessoryView.SendAttachments | OUIIM/Classes/OIMUIChat/View/InputView/CoustomInputBarAccessoryView.swift:200-207 | only a non-empty attachment list reaches the delegate |
| InputBar.CoustomInputBarAccessoryView.DidPhotoSelected | OUIIM/Classes/OIMUIChat/View/InputView/CoustomInputBarAccessoryView.swift:63-92 | the send button animates and the delegate receives the picked batches in order |
| InputBar.CoustomInputBarAccessoryView.SendAsset | OUIIM/Classes/OIMUIChat/View/InputView/CoustomInputBarAccessoryView.swift:68-90 | one asset's batch, if any, reaches the delegate |
| InputBar.CoustomInputBarAccessoryView.MoreButtonTapped | OUIIM/Classes/OIMUIChat/View/InputView/CoustomInputBarAccessoryView.swift:122-130 | "more" flips its selection, the pad shows exactly when selected, and the text view takes focus |
| InputBar.CoustomInputBarAccessoryView.EnableInput | OUIIM/Classes/OIMUIChat/View/InputView/CoustomInputBarAccessoryView.swift:234-245 | editing and both buttons follow the flag; disabling drops the keyboard |
| InputBar.CoustomInputBarAccessoryView.InputResignFirstResponder | OUIIM/Classes/OIMUIChat/View/InputView/CoustomInputBarAccessoryView.swift:247-253 | "more" is deselected, the pad removed and the keyboard dropped |
| InputBar.CoustomInputBarAccessoryView.InputBecomeFirstResponder | OUIIM/Classes/OIMUIChat/View/InputView/CoustomInputBarAccessoryView.swift:255-260 | "more" is deselected and the pad removed |
| InputBar.CoustomInputBarAccessoryView.HitTest | OUIIM/Classes/OIMUIChat/View/InputView/CoustomInputBarAccessoryView.swift:266-275 | a touch on the text view while the pad shows brings the keyboard back; any other touch changes nothing |
| InputBar.CoustomInputBarAccessoryView.InputTextViewDidBeginEditing | OUIIM/Classes/OIMUIChat/View/InputView/CoustomInputBarAccessoryView.swift:277-279 | the cursor becomes visible |
| InputBar.CoustomInputBarAccessoryView.DidSelect | OUIIM/Classes/OIMUIChat/View/InputView/CoustomInputBarAccessoryView.swift:329-338 | every pad item reaches the delegate; the album opens the photo library |
| InputBar.CoustomInputBarAccessoryView.PresentationControllerWillDismiss | OUIIM/Classes/OIMUIChat/View/InputView/CoustomInputBarAccessoryView.swift:323-325 | the bar shows again |
| MainTab.ChatBadge | Example/OpenIMSDKUIKit/Pages/MainTabViewController.swift:34-44 | no badge exactly for zero, "99+" exactly above 99 |
| MainTab.ContactBadge | Example/OpenIMSDKUIKit/Pages/MainTabViewController.swift:51-58 | no badge exactly for zero |
| MainTab.BadgesShowCount | Example/OpenIMSDKUIKit/Pages/MainTabViewController.swift:34-58 | a positive count shows as its own digits, at most two on the chat tab and uncapped on the contact tab |
| MainTab.BadgesAgreeUpTo99 | Example/OpenIMSDKUIKit/Pages/MainTabViewController.swift:34-58 | the two badges agree up to 99 and differ above it, where the chat badge is capped and the contact badge keeps counting |
| MainTab.LoginTap | Example/OpenIMSDKUIKit/Pages/MainTabViewController.swift:157-175 | a tap is ignored exactly without an account, and is a format error exactly without a password or code |
| MainTab.SubmitNamesOneAccount | Example/OpenIMSDKUIKit/Pages/MainTabViewController.swift:185-190 | the request names the account in exactly the field its login type selects, with the code and area code as entered |
| MainTab.SubmitDropsPasswordWithCode | Example/OpenIMSDKUIKit/Pages/MainTabViewController.swift:185-190 | the password is sent only without a code field; an empty code field still drops it |
| MainTab.ClearsOnlyOnAccountChange | Example/OpenIMSDKUIKit/Pages/MainTabViewController.swift:178-183 | the conversation list is cleared exactly when the phone account differs from the previous one; other login types clear unless there was none |
| MainTab.MainTabViewController.constructor | Example/OpenIMSDKUIKit/Pages/MainTabViewController.swift:17-24 | no tabs, no badges, nothing presented or sent |
| MainTab.MainTabViewController.LoadTabs | Example/OpenIMSDKUIKit/Pages/MainTabViewController.swift:26-72 | four tabs |
| MainTab.MainTabViewController.TotalUnreadChanged | Example/OpenIMSDKUIKit/Pages/MainTabViewController.swift:34-44 | the chat badge follows the unread count |
| MainTab.MainTabViewController.ContactUnreadChanged | Example/OpenIMSDKUIKit/Pages/MainTabViewController.swift:51-59 | the contact badge follows the request count |
| MainTab.MainTabViewController.ClearConversation | Example/OpenIMSDKUIKit/Pages/MainTabViewController.swift:19-21 | the conversation list is cleared once more |
| MainTab.MainTabViewController.PresentLoginController | Example/OpenIMSDKUIKit/Pages/MainTabViewController.swift:148-155 | the first tab is selected, both badges cleared, and the login screen shown |
| MainTab.MainTabViewController.LoginTapped | Example/OpenIMSDKUIKit/Pages/MainTabViewController.swift:157-190 | ignored, an error, or one request sent with the list cleared as the login-tap function decides |
| MainTab.MainTabViewController.LoginReplied | Example/OpenIMSDKUIKit/Pages/MainTabViewController.swift:190-199 | an error shows its message or code and returns to login; success stores the login type and completes with dismissal |
| MainTab.MainTabViewController.LoginSuccess | Example/OpenIMSDKUIKit/Pages/MainTabViewController.swift:209-232 | the login completes, dismissing when asked |
| MainTab.MainTabViewController.LoginExistingAccount | Example/OpenIMSDKUIKit/Pages/MainTabViewController.swift:112-132 | saved credentials log in directly, falling back to the login screen on an error; none show the login screen |
| MainTab.MainTabViewController.Logout | Example/OpenIMSDKUIKit/Pages/MainTabViewController.swift:135-146 | credentials are cleared and the login screen shows |
| MainTab.MainTabViewController.ShouldSelect | Example/OpenIMSDKUIKit/Pages/MainTabViewController.swift:236-242 | every tab may be selected; the chat list is marked as tapped |

## Left out

- Dispatch queues, `Task`, `MainActor`, Rx relays and `DispatchGroup` are treated as synchronous. This covers the main-queue assignment in `divideContactsInSection`, the two-second `asyncAfter` delays in the chat screen, and the order in which the picker's GIF checks call back (taken as asset order).
- `SetActor` is not part of this model. A reaction fired when the interface-action set empties is returned to the caller as a pending update, not run re-entrantly.
- The diff computation of DifferenceKit (`StagedChangeset(source:target:)`) is not part of this model. The stages are inputs.
- Layout, scrolling, animation, keyboard geometry, cell rendering, localisation and titles are left out. Only the flags and data these paths change are modelled.
- `handleRefresh` and `loadMoreMessages` of the chat screen are not modelled.
- Network, IM SDK and storage calls are replaced by their results, given as parameters: login replies, friend pages, joined groups, group members, resend results and received messages.
- Floating point (`CGFloat`, `TimeInterval`, GIF delays) is modelled as exact reals. `Int(_:)` of a float is modelled as truncation.
- Swift `String` `<` is modelled as lexicographic order on code points. Unicode collation is not modelled.
- The whitespace set of `trimmingCharacters(in: .whitespacesAndNewlines)` is modelled as a fixed subset of its code points: space, tab, the line and paragraph breaks, no-break space and ideographic space. The other Unicode space separators are not included.
- Attributed strings are modelled by their text. JSON parsing of custom messages is not modelled.
- `ContactType`'s full definition, `LocalAuthManager`, `LoginViewController` and `JKLLockScreenViewController` are not part of this model. The lock screen is assumed to be created successfully.
- `prepareToPlay` and the audio session setup of the player are left out. The player is a loaded url and a running flag.
- Force unwraps that would trap (`userID!`, `categorizedUsers[key]!`) are modelled on inputs where they succeed.
- The second phone guard in the login tap (MainTabViewController.swift:160) cannot fail after the first guard. The model has no branch for it.
- ChatStore.SortByTime: the order of messages with equal send time is not pinned to Swift's sort. The result is proved to be sorted and a permutation, and nothing more.
- ChatStore.AppendConvertingSpec: duplicates are kept, as in the code. `appendConvertingToMessages` does not merge by id.
- ChatMessage.MessageContentEqualIsEquivalence: content equality is not full structural equality, because media-info equality ignores the size. ContentEqualIgnoresMediaSize shows this.
- `MessageInfo` is a reference type in the SDK. The model uses values, so aliasing between `messages` and `selecteMessages` is not captured.
- InputBar.CoustomInputBarAccessoryView.InputBecomeFirstResponder: does not make the text view first responder. The source does not do so either.
- InputBar.CoustomInputBarAccessoryView.InputTextViewDidChange: the scroll after a paste is left out.
- InputBar.CoustomInputBarAccessoryView.DidSelect: opening the photo library is counted. The picker itself is not modelled.

## Findings

| source | as written | input that shows it | evidently intended | confidence | as-written member | corrected member |
|---|---|---|---|---|---|---|
| 3rd/ZLPhotoBrowser/Sources/Extensions/UIImage+ZLPhotoBrowser.swift:131-151 | `gcdForPair` orders its arguments, then computes `num1 % num2`. When the smaller argument is 0 this traps. A frame whose properties cannot be read has duration 0 (lines 95-101), so `gcdForArray` can pass a 0, and `animateGifImage` traps whenever one selected frame's properties are unreadable. | frame durations `[40, 0]`: `gcdForArray` calls `gcdForPair(0, 40)`, which evaluates `40 % 0` | gcd(0, n) = n, so the answer is 40 and no trap | medium, not executed | GifFrames.GcdForPairTrapsOnZero, GifFrames.GcdForArrayTrapsIffZero, GifFrames.AnimateGifTrapsAsWritten | GifFrames.GcdForPair, GifFrames.GcdForArray, GifFrames.ExpandFrames, GifFrames.AnimateGif |
