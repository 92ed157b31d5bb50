# learnerloft-apps: the state logic of the interactive widgets, in Dafny

learnerloft-apps is a React/TypeScript collection of small collaborative
tools. This project models the logic inside their components and proves
properties of it. The UI, the styling and the browser plumbing are not
modelled.

- **Retrospective board** (`RetroBoard`). It has columns of card ids and a table of cards. The model covers:
  - drag-and-drop;
  - voting;
  - creating and editing cards;
  - deleting and merging cards.
- **Code diff viewer** (`CodeDiff`). It is a line-by-line comparison of two texts. The loop is modelled as a method whose result is proved equal to a recursive specification.
- **Kanban board** (`KanbanBoard`). It has:
  - card moves between columns;
  - column moves, which wait for the user to confirm;
  - adding cards and columns.
- **Quiz creator** (`QuizCreator`). It covers:
  - editing a question's options;
  - the correct-answer index;
  - validation;
  - saving and removing questions.
- **Quiz participant** (`QuizParticipant`). It covers:
  - starting;
  - the countdown;
  - timeouts and the Next button;
  - scoring;
  - the saved participant record.
- **Quiz leaderboard** (`QuizLeaderboard`). A stable sort of participants by score or by completion time.
- **Todo list** (`TodoList`). Adding, toggling and the Enter key.
- **Markdown editor** (`MarkdownEditor`). The toolbar's insertion around the textarea's selection, and each button's prefix and suffix.

Two shared modules sit beside these:
- `JsSupport` holds the JavaScript built-ins the handlers rely on, with their JavaScript semantics:
  - `trim`, using the ECMAScript white-space set;
  - `substring` and `repeat`;
  - `splice`, including its clamping of the index;
  - `filter`;
  - truthiness of an optional string.
- `DragDrop` holds the drop result that the drag-and-drop library hands to both boards.

Components whose handlers update state are classes. These are `RetroBoard.BoardView`, `KanbanBoard.KanbanView`, `QuizCreator.QuizCreatorView` and `QuizParticipant.QuizSession`. Each class keeps an invariant `Valid()`. Each method states its new state through a pure transition function, and the lemmas about the component are stated about those functions. The pure components are functions.

Values that come from outside the component are parameters:
- ids from `nanoid`;
- `Date.now()`;
- the textarea's selection;
- the column list or question list loaded from storage.

## Model

| member | source | states |
|---|---|---|
| `RetroBoard.InitialBoardShape` | src/components/Board.tsx:111-132 | The initial board has three empty columns. Each is stored under its own id, and the column order lists exactly those ids once each. |
| `RetroBoard.DragEnd` | src/components/Board.tsx:225-287 | A drop with no destination, onto its own position, or naming an unknown column leaves the board unchanged. The column order and the key set are always kept, and every column stays stored under its own id. |
| `RetroBoard.SameColumnMove` | src/components/Board.tsx:242-259 | The column keeps its length and its multiset of ids. The entry at the source index is removed and `draggableId` lands at the destination index. Other ids keep their order, and every other column and the column order are untouched. |
| `RetroBoard.CrossColumnMove` | src/components/Board.tsx:262-286 | The source list loses exactly the entry at the source index. The destination list is the old one with `draggableId` spliced in at the destination index, so its other ids keep their order. No other column changes. |
| `RetroBoard.DragEndConservesIds` | src/components/Board.tsx:225-287 | When the dragged id is the one at the source index, the multiset of card ids across the listed columns is conserved by every move. |
| `RetroBoard.SameColumnConservesIds` | src/components/Board.tsx:242-259 | A move within one column conserves the board's multiset of card ids. |
| `RetroBoard.CrossColumnConservesIds` | src/components/Board.tsx:262-286 | A move across columns conserves the board's multiset of card ids. |
| `RetroBoard.ColumnIdsUpdate` | src/components/Board.tsx:252-258 | Replacing one listed column changes the board's ids by exactly the difference between that column's old and new lists. |
| `RetroBoard.MoveKeepsMultiset` | src/components/Board.tsx:244-245 | Taking an entry out with `splice` and putting the same id back anywhere keeps the list's multiset. |
| `RetroBoard.Vote` | src/components/Board.tsx:289-302 | An upvote adds 1. A downvote gives `max(0, votes - 1)`: 1 less for a positive count and 0 otherwise. An unknown card is a no-op, and every other card is unchanged. |
| `RetroBoard.VoteKeepsVotesNonNegative` | src/components/Board.tsx:295 | Non-negative vote counts stay non-negative. |
| `RetroBoard.VoteInverse` | src/components/Board.tsx:289-302 | A downvote undoes an upvote. An upvote undoes a downvote of a positive count. |
| `RetroBoard.VoteExamples` | tmp_file.tsx:224-256 | 3 votes become 4 on an upvote and 2 on a downvote. |
| `RetroBoard.SaveCard` | src/components/Board.tsx:316-369 | Blank content changes nothing, and so does having no open card and no open column. The column order and the key set are kept. |
| `RetroBoard.EditChangesOnlyContent` | src/components/Board.tsx:324-334 | Editing changes only the open card's content. Its id, its votes, every other card and the board stay. |
| `RetroBoard.CreateAddsOneCard` | src/components/Board.tsx:335-363 | Creating adds exactly one table entry: the new id, the given content and 0 votes. The id is appended to the end of the open column only. |
| `RetroBoard.DeleteCard` | src/components/Board.tsx:371-397 | Without an open card and column nothing changes. Otherwise the table loses exactly the card's key. |
| `RetroBoard.DeleteRemovesCard` | src/components/Board.tsx:371-392 | Every occurrence of the id leaves the open column, and every other id keeps its multiplicity. Other cards and columns are unchanged. |
| `RetroBoard.Merge` | src/components/Board.tsx:405-459 | Merging a card with itself, or with a missing card, changes nothing. The column order and the key set are kept. |
| `RetroBoard.MergeEffect` | src/components/Board.tsx:426-445 | The target gets the content `target + "\n---\n" + source` and the summed votes. The source leaves the table and its column, and the table has one card fewer. |
| `RetroBoard.BoardView.constructor` | src/components/Board.tsx:111-133 | The component starts with the initial board, an empty card table and no modal or merge selection. |
| `RetroBoard.BoardView.OnDragEnd` | src/components/Board.tsx:225-287 | The board becomes `DragEnd` of the old board, and the invariant is kept. |
| `RetroBoard.BoardView.HandleVote` | src/components/Board.tsx:289-302 | The card table becomes `Vote` of the old table. |
| `RetroBoard.BoardView.OpenCardModal` | src/components/Board.tsx:304-314 | The modal opens on the column. The card is selected only when its non-empty id is in the table. |
| `RetroBoard.BoardView.HandleSaveCard` | src/components/Board.tsx:316-369 | The state becomes `SaveCard` of the old state, and the modal closes. |
| `RetroBoard.BoardView.HandleDeleteCard` | src/components/Board.tsx:371-397 | The state becomes `DeleteCard` of the old state, and the modal closes. |
| `RetroBoard.BoardView.StartMerging` | src/components/Board.tsx:399-403 | The merge source is remembered, merge mode is on, and the modal closes. |
| `RetroBoard.BoardView.MergeCards` | src/components/Board.tsx:405-459 | Without a merge source nothing happens. Otherwise the state becomes `Merge` of the old state, and merge mode ends. |
| `RetroBoard.NewCardId` | src/components/Board.tsx:337 | The id is `card-` followed by the nanoid, so distinct nanoids give distinct ids. |
| `CodeDiff.Split` | src/components/CodeDiffViewer.tsx:258-259 | `split('\n')` always yields at least one line. |
| `CodeDiff.JoinSplit` | src/components/CodeDiffViewer.tsx:258-259 | Joining the split lines with newlines gives the text back, and no line holds a newline. |
| `CodeDiff.SplitJoin` | src/components/CodeDiffViewer.tsx:258-259 | Splitting newline-free lines joined by newlines gives the lines back. |
| `CodeDiff.Entries` | src/components/CodeDiffViewer.tsx:268-280 | Each line position yields one or two entries. |
| `CodeDiff.EntriesShape` | src/components/CodeDiffViewer.tsx:271-280 | Equal lines give one unchanged entry. Otherwise there is a removed entry exactly when the original line is non-empty and an added entry exactly when the modified line is non-empty, in that order. |
| `CodeDiff.ComputeDiff` | src/components/CodeDiffViewer.tsx:252-284 | The loop's result equals the specification `Diff`: nothing for two empty inputs, otherwise the entries of every line position up to the longer line count. |
| `CodeDiff.DiffLengthBounds` | src/components/CodeDiffViewer.tsx:265-281 | The diff has between `max` and `2 * max` entries, where `max` is the larger line count. |
| `CodeDiff.DiffUpToLength` | src/components/CodeDiffViewer.tsx:267-281 | After `n` positions there are between `n` and `2n` entries. |
| `CodeDiff.DiffIdentical` | src/components/CodeDiffViewer.tsx:271-272 | Comparing a text with itself gives one unchanged entry per line, and nothing for the empty text. |
| `CodeDiff.DiffUpToSame` | src/components/CodeDiffViewer.tsx:271-272 | On identical line lists, entry `k` is the unchanged line `k`. |
| `CodeDiff.DiffNoEmptyChanges` | src/components/CodeDiffViewer.tsx:274-279 | No added or removed entry has empty text. |
| `CodeDiff.DiffUpToNoEmptyChanges` | src/components/CodeDiffViewer.tsx:274-279 | No added or removed entry among the first `n` positions has empty text. |
| `CodeDiff.DiffKeepsEveryLine` | src/components/CodeDiffViewer.tsx:258-281 | The original side of the diff lists exactly the original's non-empty lines in order, and the same holds for the modified side. |
| `CodeDiff.DiffUpToKeepsLines` | src/components/CodeDiffViewer.tsx:267-281 | After `n` positions, each side lists the non-empty lines among the first `n` of its input. |
| `CodeDiff.EntriesKeepLines` | src/components/CodeDiffViewer.tsx:268-280 | One position's entries keep that position's non-empty original and modified lines. |
| `CodeDiff.DiffExample` | src/test/components/CodeDiffViewer.test.tsx:123-141 | The test's texts give unchanged, removed, added, unchanged. |
| `CodeDiff.Diff` | src/components/CodeDiffViewer.tsx:252-284 | The diff is empty exactly when both texts are empty. What it contains is stated in `DiffKeepsEveryLine` and `DiffLengthBounds`. |
| `CodeDiff.LineAt` | src/components/CodeDiffViewer.tsx:268-269 | The line is empty exactly past the end of the list or on an empty line; otherwise it is the line at that position. |
| `KanbanBoard.FindColumn` | src/components/KanbanBoard.tsx:432-435 | `findIndex` gives no index exactly when no column has the id. Otherwise it gives the first column with that id. |
| `KanbanBoard.FindCard` | src/components/KanbanBoard.tsx:441-442 | `find` gives nothing exactly when no card has the id. Otherwise it gives a card of the list with that id. |
| `KanbanBoard.WithoutCardMembers` | src/components/KanbanBoard.tsx:445-447 | The filtered list holds exactly the cards whose id differs. |
| `KanbanBoard.WithoutCardOrder` | src/components/KanbanBoard.tsx:445-447 | The filter keeps order: filtering a concatenation filters each part. |
| `KanbanBoard.WithoutCardSingle` | src/components/KanbanBoard.tsx:445-447 | A single card is kept exactly when its id differs. |
| `KanbanBoard.MoveCard` | src/components/KanbanBoard.tsx:431-454 | Column count, ids and titles are kept. A missing column or card leaves the columns unchanged. |
| `KanbanBoard.MoveCardDestination` | src/components/KanbanBoard.tsx:449-450 | The destination holds the card at the clamped destination index, and taking it out again gives the destination's list after the filter. |
| `KanbanBoard.MoveCardElsewhere` | src/components/KanbanBoard.tsx:438-450 | Columns other than the source and the destination are unchanged. |
| `KanbanBoard.MoveCardConservesCards` | src/components/KanbanBoard.tsx:431-454 | When the dragged id occurs at most once in its column, the multiset of all cards on the board is conserved. |
| `KanbanBoard.WithoutUniqueCard` | src/components/KanbanBoard.tsx:445-447 | Filtering out an id held by exactly one card removes exactly that card. |
| `KanbanBoard.ReorderColumns` | src/components/KanbanBoard.tsx:413-415 | The column order is a permutation. The moved column lands at the clamped destination index, and taking it out again gives the list without it. |
| `KanbanBoard.ReorderUndo` | src/components/KanbanBoard.tsx:413-415 | Moving the column back from where it landed restores the original order. |
| `KanbanBoard.AddCard` | src/components/KanbanBoard.tsx:478-486 | Only the column with the id gets the card appended. Every other column is unchanged. |
| `KanbanBoard.AddCardAddsOne` | src/components/KanbanBoard.tsx:478-486 | With distinct column ids, the board's cards gain exactly the new card. |
| `KanbanBoard.NewCardContent` | src/components/KanbanBoard.tsx:468-476 | A non-blank input gives a card with a non-empty, already trimmed content and the `card-` id. |
| `KanbanBoard.NewColumnTitle` | src/components/KanbanBoard.tsx:504-513 | A non-blank title gives an empty column with a non-empty, already trimmed title and the `column-` id. |
| `KanbanBoard.KanbanView.constructor` | src/components/KanbanBoard.tsx:251-266 | The loaded columns, with no pending move, no confirmation and empty inputs. |
| `KanbanBoard.KanbanView.OnDragEnd` | src/components/KanbanBoard.tsx:383-404 | A drop with no move does nothing. A column drop only records the pending move and asks for confirmation. A card drop applies `MoveCard`. |
| `KanbanBoard.KanbanView.ConfirmColumnMove` | src/components/KanbanBoard.tsx:407-422 | Without a pending move nothing happens. Otherwise the columns are reordered and the pending move is cleared. |
| `KanbanBoard.KanbanView.CancelColumnMove` | src/components/KanbanBoard.tsx:425-428 | The pending move and the confirmation are cleared. |
| `KanbanBoard.KanbanView.StartAddingCard` | src/components/KanbanBoard.tsx:457-460 | The column is marked for adding and the input is cleared. |
| `KanbanBoard.KanbanView.SetNewCardContent` | src/components/KanbanBoard.tsx:254 | The input holds the typed text. |
| `KanbanBoard.KanbanView.CancelAddingCard` | src/components/KanbanBoard.tsx:462-465 | Adding ends and the input is cleared. |
| `KanbanBoard.KanbanView.ConfirmAddCard` | src/components/KanbanBoard.tsx:467-490 | Without a column or with a blank input the columns are unchanged. Otherwise the new card is added to that column. Adding ends either way. |
| `KanbanBoard.KanbanView.StartAddingColumn` | src/components/KanbanBoard.tsx:493-496 | Adding a column starts with an empty title. |
| `KanbanBoard.KanbanView.SetNewColumnTitle` | src/components/KanbanBoard.tsx:260 | The title input holds the typed text. |
| `KanbanBoard.KanbanView.CancelAddingColumn` | src/components/KanbanBoard.tsx:498-501 | Adding a column ends and the title is cleared. |
| `KanbanBoard.KanbanView.ConfirmAddColumn` | src/components/KanbanBoard.tsx:503-518 | A blank title changes nothing. Otherwise exactly the new column is appended. Adding ends either way. |
| `KanbanBoard.WithoutCard` | src/components/KanbanBoard.tsx:445-447 | The result is never longer. Membership, order and multiplicity are stated in `WithoutCardMembers`, `WithoutCardOrder` and `WithoutUniqueCard`. |
| `KanbanBoard.NewCard` | src/components/KanbanBoard.tsx:468-476 | The id is `card-` followed by the nanoid, and the content is the trimmed text. |
| `KanbanBoard.NewColumn` | src/components/KanbanBoard.tsx:504-513 | The id is `column-` followed by the nanoid, the title is the trimmed text, and the column has no cards. |
| `QuizCreator.AddOption` | src/components/QuizCreator.tsx:241-248 | One empty option is appended below six options; at six nothing changes. The count stays within 2 to 6. |
| `QuizCreator.RemoveOption` | src/components/QuizCreator.tsx:250-269 | Only above two options: the option is spliced out. A correct answer at that index becomes 0, one above it moves down, and one below it stays. The count stays within 2 to 6. |
| `QuizCreator.RemoveOptionKeepsAnswer` | src/components/QuizCreator.tsx:255-261 | A valid correct answer stays valid. When another option is removed, it still names the same option. |
| `QuizCreator.ChangeOption` | src/components/QuizCreator.tsx:271-280 | Only the option at the index changes. |
| `QuizCreator.ChangeQuestionType` | src/components/QuizCreator.tsx:282-298 | True/false gets the options `True` and `False`. Multiple choice clears a two-option list and keeps a longer one. The correct answer becomes 0. |
| `QuizCreator.ValidateQuestion` | src/components/QuizCreator.tsx:300-325 | No message exactly when the text is non-empty, a multiple-choice question has at least two options, and the correct answer indexes an option. Otherwise the first failing check's message. |
| `QuizCreator.TimeLimitOrDefault` | src/components/QuizCreator.tsx:336 | A zero or `NaN` time limit becomes 30, any other value is kept, and the result is never 0. |
| `QuizCreator.BuildQuestionWellFormed` | src/components/QuizCreator.tsx:330-337 | A validated draft becomes a well-formed question under the fresh id. |
| `QuizCreator.SaveQuestion` | src/components/QuizCreator.tsx:339-348 | While editing, only the edited slot is replaced. Otherwise the question is appended. |
| `QuizCreator.SaveQuestionKeepsWellFormed` | src/components/QuizCreator.tsx:339-348 | Saving keeps every question well-formed. |
| `QuizCreator.EditingAfterRemovalAsWritten` | src/components/QuizCreator.tsx:372-381 | As written, only removing the edited question clears `editing`. Any other removal leaves the index as it was. |
| `QuizCreator.EditingAfterRemoval` | src/components/QuizCreator.tsx:367-382 | The corrected update clears `editing` for the edited question and moves it down when an earlier question is removed. |
| `QuizCreator.RemovalKeepsEditTarget` | src/components/QuizCreator.tsx:367-382 | With the corrected update, `editing` stays a valid index of the same question. |
| `QuizCreator.AssignAt` | src/components/QuizCreator.tsx:341-342 | Assigning at an index overwrites inside the list and appends at its length. |
| `QuizCreator.StaleEditingExample` | src/components/QuizCreator.tsx:367-382 | Take three questions, edit the third and remove the first. As written the update is then appended, with the edited question kept. The corrected update overwrites it. |
| `QuizCreator.ValidateQuiz` | src/components/QuizCreator.tsx:384-396 | No error exactly when the title is not blank and there is a question. A blank title is reported first, then an empty list. |
| `QuizCreator.QuizCreatorView.constructor` | src/components/QuizCreator.tsx:224-240 | An empty title, no questions, the default draft, and no editing. |
| `QuizCreator.QuizCreatorView.SetQuizTitle` | src/components/QuizCreator.tsx:469 | The title holds the typed text. |
| `QuizCreator.QuizCreatorView.SetQuestionText` | src/components/QuizCreator.tsx:523 | Only the draft's text changes. |
| `QuizCreator.QuizCreatorView.SetTimeLimit` | src/components/QuizCreator.tsx:548 | Only the draft's time limit changes, to the parsed value or `NaN`. |
| `QuizCreator.QuizCreatorView.SetCorrectAnswer` | src/components/QuizCreator.tsx:561 | Only the draft's correct answer changes. |
| `QuizCreator.QuizCreatorView.HandleAddOption` | src/components/QuizCreator.tsx:241-248 | The draft becomes `AddOption` of the draft, keeping the invariant. |
| `QuizCreator.QuizCreatorView.HandleRemoveOption` | src/components/QuizCreator.tsx:250-269 | The draft becomes `RemoveOption` of the draft, keeping the invariant. |
| `QuizCreator.QuizCreatorView.HandleOptionChange` | src/components/QuizCreator.tsx:271-280 | The draft becomes `ChangeOption` of the draft. |
| `QuizCreator.QuizCreatorView.HandleQuestionTypeChange` | src/components/QuizCreator.tsx:282-298 | The draft becomes `ChangeQuestionType` of the draft. |
| `QuizCreator.QuizCreatorView.AddQuestion` | src/components/QuizCreator.tsx:327-360 | An invalid draft is reported and nothing changes. Otherwise the built question is saved, editing ends, the form resets and the error clears. |
| `QuizCreator.QuizCreatorView.EditQuestion` | src/components/QuizCreator.tsx:362-365 | The form holds the chosen question, and it is marked as edited. |
| `QuizCreator.QuizCreatorView.RemoveQuestion` | src/components/QuizCreator.tsx:367-382 | The question is spliced out. Removing the edited one resets the form. `editing` follows the corrected update. |
| `QuizCreator.QuizCreatorView.ClearForm` | src/components/QuizCreator.tsx:594-602 | A fresh draft, no editing and no error. |
| `QuizCreator.QuizCreatorView.ValidateQuizForm` | src/components/QuizCreator.tsx:384-396 | It succeeds exactly when `ValidateQuiz` finds nothing. Otherwise the error holds the message. |
| `QuizCreator.BuildQuestion` | src/components/QuizCreator.tsx:330-337 | The question carries the draft's fields under the fresh id. Its time limit is never zero, and a non-zero draft limit is kept. |
| `QuizParticipant.ValidateName` | src/components/QuizParticipant.tsx:290-293 | The error is given exactly when the name is empty or only whitespace. |
| `QuizParticipant.Tick` | src/components/QuizParticipant.tsx:250-257 | At 1 second or less the count becomes 0 and the timeout fires. Otherwise it decreases by 1 and stays at least 1. |
| `QuizParticipant.CountdownFiresAtLimit` | src/components/QuizParticipant.tsx:245-257 | From a time limit `t >= 1`, `n < t` ticks leave `t - n` without firing, and tick `t` fires. |
| `QuizParticipant.TimeoutAnswer` | src/components/QuizParticipant.tsx:268-276 | The timeout answer has option -1 and the whole time limit spent. |
| `QuizParticipant.ChosenAnswer` | src/components/QuizParticipant.tsx:306-317 | The chosen option, with time spent plus time left equal to the limit. |
| `QuizParticipant.FindQuestion` | src/components/QuizParticipant.tsx:334 | `find` gives nothing exactly when no question has the id. Otherwise it gives the first question with that id. |
| `QuizParticipant.Score` | src/components/QuizParticipant.tsx:331-338 | The score never exceeds the number of answers. |
| `QuizParticipant.CountScore` | src/components/QuizParticipant.tsx:331-338 | The `forEach` count equals `Score`. |
| `QuizParticipant.ScoreAppend` | src/components/QuizParticipant.tsx:331-338 | The score of two runs of answers is the sum of their scores. |
| `QuizParticipant.NoAnswerNeverScores` | src/components/QuizParticipant.tsx:272-273 | With non-negative correct answers, the -1 answer never scores, and recording it leaves the score unchanged. |
| `QuizParticipant.FullScoreIffAllCorrect` | src/components/QuizParticipant.tsx:333-338 | Full marks exactly when every answer earns its point. |
| `QuizParticipant.SaveAnswers` | src/components/QuizParticipant.tsx:346-350 | The record's answers copy each answer field by field, in order. |
| `QuizParticipant.MakeParticipant` | src/components/QuizParticipant.tsx:341-351 | The record carries the id, name and quiz id, one saved answer per answer, and the score. |
| `QuizParticipant.FinishedAnswersAsWritten` | src/components/QuizParticipant.tsx:309-317 | As written, the answers scored at the end are those before the final one. |
| `QuizParticipant.FinishedAnswers` | src/components/QuizParticipant.tsx:309-338 | The corrected answers scored at the end include the final one. |
| `QuizParticipant.FinishedScoreCountsLast` | src/components/QuizParticipant.tsx:320-338 | The corrected score adds exactly the final answer's point. |
| `QuizParticipant.StaleScoreExample` | src/components/QuizParticipant.tsx:303-338 | A one-question quiz answered correctly scores 0 with no saved answers as written, and 1 when corrected. |
| `QuizParticipant.QuizSession.constructor` | src/components/QuizParticipant.tsx:194-209 | The loaded quiz, not started, with no answers and a score of 0. |
| `QuizParticipant.QuizSession.SetName` | src/components/QuizParticipant.tsx:200 | The name holds the typed text. |
| `QuizParticipant.QuizSession.HandleStartQuiz` | src/components/QuizParticipant.tsx:287-297 | A blank name sets the error and does not start. Otherwise the quiz starts, the error clears and the countdown starts at the first question's limit. |
| `QuizParticipant.QuizSession.HandleSelectOption` | src/components/QuizParticipant.tsx:299-301 | The option is selected. |
| `QuizParticipant.QuizSession.Advance` | src/components/QuizParticipant.tsx:319-325 | Before the last question, the index advances by one, the selection clears, the countdown restarts at the next limit, and the score and records are unchanged. At the last question the quiz finishes with `Score` of all answers and one appended record. The finish is the corrected one: the answers scored and saved include the final one (`FinishedAnswers`), where the source's `finishQuiz` reads the answers from before it. |
| `QuizParticipant.QuizSession.Finish` | src/components/QuizParticipant.tsx:328-361 | The quiz completes with `Score` of all answers, and exactly one record is appended. The finish is the corrected one: the answers scored and saved include the final one (`FinishedAnswers`), where the source's `finishQuiz` reads the answers from before it. |
| `QuizParticipant.QuizSession.HandleTimeout` | src/components/QuizParticipant.tsx:262-285 | The timeout answer is appended. Before the last question, the index advances by one, the selection clears, the countdown restarts at the next limit, and the score and records are unchanged. At the last question the quiz completes with `Score` of all answers and one appended record. The finish is the corrected one: the answers scored and saved include the final one (`FinishedAnswers`), where the source's `finishQuiz` reads the answers from before it. |
| `QuizParticipant.QuizSession.HandleTick` | src/components/QuizParticipant.tsx:250-257 | A tick that does not expire only counts down; everything else is unchanged. One that expires records the timeout answer. Before the last question it then advances with the countdown at the next limit; at the last question the countdown stays at 0 and the quiz completes with `Score` of all answers and one appended record. The finish is the corrected one: the answers scored and saved include the final one (`FinishedAnswers`), where the source's `finishQuiz` reads the answers from before it. |
| `QuizParticipant.QuizSession.HandleNextQuestion` | src/components/QuizParticipant.tsx:303-326 | Without a selection nothing changes. Otherwise the chosen answer is appended with `timeLimit - timeLeft` spent. Before the last question, the index advances by one, the selection clears, the countdown restarts at the next limit, and the score and records are unchanged. At the last question the quiz completes with `Score` of all answers and one appended record. The finish is the corrected one: the answers scored and saved include the final one (`FinishedAnswers`), where the source's `finishQuiz` reads the answers from before it. |
| `QuizParticipant.Earns` | src/components/QuizParticipant.tsx:334-336 | True exactly when the first question with the answer's id has the chosen option as its correct answer. |
| `QuizLeaderboard.CompletedAtOrZero` | src/components/QuizLeaderboard.tsx:191-192 | A missing completion time counts as 0. |
| `QuizLeaderboard.OrderOf` | src/components/QuizLeaderboard.tsx:187-195 | `'score'` and `'time'` select their orders, and anything else selects no order. |
| `QuizLeaderboard.Compare` | src/components/QuizLeaderboard.tsx:186-196 | The comparator is the difference of the sort keys, so it sorts ascending on the key. |
| `QuizLeaderboard.InsertSorted` | src/components/QuizLeaderboard.tsx:186-196 | One insertion step adds exactly the entry: the length grows by one and the multiset gains the entry. |
| `QuizLeaderboard.Sort` | src/components/QuizLeaderboard.tsx:185-197 | The result is a permutation of the input, of the same length, sorted by the key. |
| `QuizLeaderboard.InsertSortedIsSorted` | src/components/QuizLeaderboard.tsx:186-196 | Insertion keeps a sorted list sorted. |
| `QuizLeaderboard.InsertSortedRuns` | src/components/QuizLeaderboard.tsx:186-196 | Insertion appends the entry to its own key's run and leaves the other runs unchanged. |
| `QuizLeaderboard.SortIsStable` | src/components/QuizLeaderboard.tsx:186-196 | For every key, the entries with that key keep their input order. |
| `QuizLeaderboard.OtherSortKeepsOrder` | src/components/QuizLeaderboard.tsx:195 | Any other `sortBy` returns the input order. |
| `QuizLeaderboard.SortByScore` | src/components/QuizLeaderboard.tsx:187-188 | Sorting by score gives a permutation that is non-increasing in score, with ties in stored order. |
| `QuizLeaderboard.SortByTime` | src/components/QuizLeaderboard.tsx:189-193 | Sorting by time gives a permutation that is non-decreasing in completion time (missing counts as 0), with ties in stored order. |
| `QuizLeaderboard.LoadedOrder` | src/components/QuizLeaderboard.tsx:164-170 | The loaded participants are shown as a permutation sorted by score. |
| `QuizLeaderboard.SortParticipants` | src/components/QuizLeaderboard.tsx:185-197 | The result has the same length and the same entries, and is sorted by the chosen key. Stability is stated in `SortIsStable`, `SortByScore` and `SortByTime`. |
| `TodoList.AddTodo` | src/pages/TodoListPage.tsx:75-84 | A blank input changes nothing. Otherwise exactly one todo is appended, with the trimmed text and not completed, the earlier todos are kept, and the input clears. |
| `TodoList.AddedTextIsTrimmed` | src/pages/TodoListPage.tsx:76-79 | The added text is non-empty and already trimmed. |
| `TodoList.Toggle` | src/pages/TodoListPage.tsx:86-90 | Completion flips exactly on todos with the id. Ids, texts, order and length are kept. |
| `TodoList.ToggleTwice` | src/pages/TodoListPage.tsx:86-90 | Toggling the same id twice restores the list. |
| `TodoList.TogglesCommute` | src/pages/TodoListPage.tsx:86-90 | Toggles of two ids commute. |
| `TodoList.ToggleAbsent` | src/pages/TodoListPage.tsx:86-90 | Toggling an absent id changes nothing. |
| `TodoList.ToggleTodo` | src/pages/TodoListPage.tsx:86-90 | Only the list changes, by `Toggle`. |
| `TodoList.KeyPress` | src/pages/TodoListPage.tsx:92-96 | Enter adds, and any other key does nothing. |
| `TodoList.EnterAfterAddIsIdle` | src/pages/TodoListPage.tsx:75-96 | After an add has cleared the input, Enter adds nothing. |
| `MarkdownEditor.InsertText` | src/components/MarkdownEditor.tsx:384-405 | Without a textarea there is no edit. The new selection is the old one moved by the prefix length. For a selection within the text, the text grows by the prefix and suffix lengths. |
| `MarkdownEditor.InsertTextSplice` | src/components/MarkdownEditor.tsx:388-394 | The new text is the text before the selection, the prefix, the selection, the suffix and the text after. |
| `MarkdownEditor.InsertTextLayout` | src/components/MarkdownEditor.tsx:388-403 | The text before and after is kept. The prefix and suffix sit around the selection, and the new selection covers exactly the old selected text. |
| `MarkdownEditor.InsertTextUndo` | src/components/MarkdownEditor.tsx:388-403 | Cutting the prefix and suffix out again restores the original text. |
| `MarkdownEditor.HeadingPrefix` | src/components/MarkdownEditor.tsx:407-410 | The level-`n` prefix is `n` `#` characters and a space. |
| `MarkdownEditor.PrefixOnlyTools` | src/components/MarkdownEditor.tsx:432-446 | Headings, lists, the quote and the table only insert in front of the selection. |
| `MarkdownEditor.HeadingOnEmpty` | src/test/components/MarkdownEditor.test.tsx:245-248 | H3 on an empty editor gives `### `. |
| `MarkdownEditor.WrappingToolsOnEmpty` | src/test/components/MarkdownEditor.test.tsx:251-298 | On an empty editor: bold gives `****`, italic `**`, link `[](url)`, code two backticks and the code block an empty fence. |
| `MarkdownEditor.LinkAroundWord` | src/components/MarkdownEditor.tsx:420-422 | A link around a selected word makes it the link text, still selected. |
| `MarkdownEditor.Affixes` | src/components/MarkdownEditor.tsx:407-446 | Every button has a non-empty prefix. The suffix is empty exactly for the headings, the two lists, the quote and the table. |
| `MarkdownEditor.ApplyTool` | src/components/MarkdownEditor.tsx:407-446 | Without a textarea there is no edit. The selection moves by the prefix length and keeps its length. For a selection within the text, the text grows by both affixes. |
| `JsSupport.TrimIsInnerSlice` | src/pages/TodoListPage.tsx:79 | `trim` keeps a contiguous slice that neither starts nor ends with white space, and cuts only white space. |
| `JsSupport.TrimEmptyIffAllWhitespace` | src/pages/TodoListPage.tsx:76 | The trimmed text is empty exactly when the text is all white space. |
| `JsSupport.TrimIdempotent` | src/components/KanbanBoard.tsx:475 | Trimming twice is trimming once. |
| `JsSupport.TrimStartIndex` | src/pages/TodoListPage.tsx:79 | `trim` skips exactly the leading white space, up to the first other character. |
| `JsSupport.Substring` | src/components/MarkdownEditor.tsx:388-395 | `substring(a, b)` is the slice between the indices, after swapping them when `b < a`, and is never longer than the text. |
| `JsSupport.Repeat` | src/components/MarkdownEditor.tsx:408 | `repeat(n)` gives `n` copies of the character. |
| `JsSupport.RemoveAt` | src/components/Board.tsx:244 | `splice(i, 1)` removes exactly the entry at `i` and shifts the rest down. An index past the end removes nothing. |
| `JsSupport.InsertAt` | src/components/Board.tsx:245 | `splice(i, 0, x)` puts `x` at `i`, clamped to the length, with every other entry kept in order. |
| `JsSupport.RemoveAll` | src/components/Board.tsx:380-383 | `filter(e => e !== x)` keeps no `x` and adds nothing new. |
| `JsSupport.RemoveAllOrder` | src/components/Board.tsx:380-383 | The filter keeps order: filtering a concatenation filters each part. |
| `JsSupport.RemoveAllSingle` | src/components/Board.tsx:380-383 | A single entry is kept exactly when it differs from the filtered value. |
| `JsSupport.CountAppend` | src/components/Board.tsx:380-383 | The number of occurrences in a concatenation is the sum of the two counts. |
| `JsSupport.RemoveAllAbsent` | src/components/Board.tsx:380-383 | Filtering out an absent id changes nothing. |
| `JsSupport.RemoveInsertedAt` | src/components/Board.tsx:244-245 | Removing what `splice` inserted gives the list back. |
| `JsSupport.InsertRemovedAt` | src/components/KanbanBoard.tsx:414-415 | Inserting a removed entry back where it was gives the list back. |
| `JsSupport.RemoveAllCounts` | src/components/Board.tsx:380-383 | Filtering an id out removes exactly its occurrences and keeps every other count. |
| `JsSupport.Trim` | src/pages/TodoListPage.tsx:76-79 | The result is never longer than the input. A non-empty result neither starts nor ends with white space. |

## Left out

- Storage. The app reads and writes `localStorage` and the JSON in it. The model starts from loaded values instead: the Kanban columns, the quiz questions and the stored participants are constructor parameters. Saving a quiz is not modelled, and neither are the quiz link or the quiz's `createdAt` timestamp (`createQuiz`, src/components/QuizCreator.tsx:398-419). The participants list that `finishQuiz` appends to is a field of `QuizSession`.
- Scheduling and the DOM: `setInterval` and `clearInterval`, `setTimeout`, focus, and reading the textarea's selection. These belong to the browser, so the countdown is modelled one tick at a time. The selection is a parameter, `None` when there is no textarea.
- The timer effect runs after a render: it sets the countdown when a question starts. The model folds it into the transition that changes the question, so the short gap between the render and the effect is not modelled.
- `QuizParticipant.QuizSession.HandleNextQuestion`: requires the current question to exist when an option is selected. The component would throw on a missing question, and the UI never offers one. A quiz that failed to load (`if (!quiz) return`) is not modelled, because the component renders an error page instead.
- The timer bar's percentage is a floating-point value and is left out.
- Text offsets are counted in characters (Unicode scalar values). JavaScript's `selectionStart`, `selectionEnd`, `substring` and `length` count UTF-16 code units, so for text with characters outside the Basic Multilingual Plane (emoji, for example) a `MarkdownEditor.Selection` is not the offset the textarea reports.
- Kanban `moveCard`: the source assigns `.cards` and splices the destination list in place, on column objects shared with the previous state. The model treats the columns as values, so that aliasing is not captured.
- `KanbanBoard.KanbanView.OnDragEnd`: requires the source index of a dragged column to be within the column list. The drag-and-drop library guarantees this, because the index comes from the rendered list.
- `QuizCreator.ChangeOption`: requires the index to be within the options, because the UI only offers existing options. An assignment past the end, which would leave a hole in a JavaScript array, is not modelled.
- The draft question in `QuizCreator` is a full record. The component's `Partial` type, with possibly missing fields, is not modelled, and neither is the draft's stale `id` after `editQuestion`. `addQuestion` always assigns a fresh id.
- RetroBoard `onDragEnd` re-inserts `draggableId` rather than the removed entry. The conservation lemmas therefore require that the id at the source index is the dragged one.
- The quiz description (`setQuizDescription`, src/components/QuizCreator.tsx:479) is a free text field that only `createQuiz` stores, so it is left out with saving.
- Ids from `nanoid` and the clock from `Date.now()` are parameters.
- Rendering, theming, routing, clipboard copying and the modals are UI and are not modelled. These pieces are not part of this model: the markdown preview parser, the JSON formatter, and the loading and error pages.
- The quiz records saved by `finishQuiz` never set `completedAt`. Sorting the leaderboard by time therefore sees every time as 0 and keeps the stored order; `QuizLeaderboard.SortByTime` covers that case.

## Findings

| source | as written | input that shows it | evidently intended | confidence | as-written member | corrected member |
|---|---|---|---|---|---|---|
| src/components/QuizCreator.tsx:367-382 | Removing a question before the one being edited leaves `editing` unchanged. The index then names the next question, or points past the end, and the next save writes to the wrong slot or appends. | Questions q0, q1, q2; edit q2; remove q0. Saving the edit gives `[q1, q2, updated]`. | `editing` moves down with the question it names, so the save gives `[q1, updated]`. | not executed | `QuizCreator.StaleEditingExample` | `QuizCreator.EditingAfterRemoval` |
| src/components/QuizParticipant.tsx:309-338 | `finishQuiz` runs in the same event as the `setAnswers` that records the final answer. It reads the `answers` from before that update, so the final answer is neither scored nor saved. | A one-question quiz answered correctly scores 0, and its record has no answers. | The score and the record include the final answer, so the score is 1. | not executed | `QuizParticipant.StaleScoreExample` | `QuizParticipant.FinishedScoreCountsLast` |
