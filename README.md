# Streamlit mini-apps: a verified Dafny model of their session logic

The repository is a set of single-page Streamlit scripts. Each keeps its
state in `st.session_state`, and each button press runs a small state change.
This project models that logic, one Dafny module per script:

- Session fields become fields of a class.
- Button handlers become methods.
- Random choices and clock readings become parameters.

| file | module | script | what it covers |
|---|---|---|---|
| `tictactoe.dfy` | `TicTacToe` | `game.py` | The 9-cell board, the winning-line scan, the full-board check and the computer reply. Also the click handler (place, win, draw or turn), the two resets and the mode switch. |
| `snake.dfy` | `Snake` | `snakegame.py` | One `move_snake` step on the 20x20 grid, the food draw, the direction buttons, the greedy auto-play rule and the restart. |
| `rps.dfy` | `RockPaperScissors` | `rps_app.py` | The winner relation, the round recorder (scores, rounds, history), the reset and the best-of-N banner. |
| `quiz.dfy` | `Quiz` | `quizapp.py` | The question table, the answer store, Previous/Next/Finish/Show Results, the score count, the result band and the reset. |
| `registration.dfy` | `EventRegistration` | `eventregistration.py` | `strip`, `lower`, the email regex, the submit-time checks, the case-insensitive duplicate test, append-and-count, clear, today's count and the latest-event label. |
| `stopwatch.dfy` | `Stopwatch` | `stopwatch.py` | `get_current_time`, START/STOP/RESET/LAP and the lap statistics. |
| `ranking.dfy` | `Ranking` | `appropriate.py` | The descending sort by a key that the recommendation lists and the table use. |
| `recommender.dfy` | `Recommender` | `appropriate.py` | The embedding and vector-database recommendations and the setup-days estimate. Also the filtered and sorted database table, the radar "ease" value and the weighted decision-matrix score. |
| `billing.dfy` | `Billing` | `restaurantbilling.py` | `safe_key`, the five menus, the selected items, the bill rows and subtotal, and the tax, tip and total. |
| `optional.dfy` | `Optional` | (shared) | The `Option` datatype. |

Each button handler keeps its class's invariant. Most handlers keep `Valid()`.
`TicTacToe.Game.Place`, the step shared by the human move and the computer's
reply, keeps the weaker `Consistent()`. The snake's direction buttons change
only the direction and need no invariant. Each handler's `ensures` gives the
new value of every field it may change. The properties the scripts rely on
are stated as invariants and lemmas. Examples:

- Tic-tac-toe mark counts stay balanced with whose turn it is.
- The snake never crosses itself, and its length is the score plus three.
- Scores are the counts of results in the history.
- The quiz cursor stays on a question.
- A submission that passes validation stores an email that matches the pattern.
  Appending it keeps the stored emails distinct, provided they were distinct
  before. The records loaded at start are taken as they are.
- The stopwatch time never runs backwards under a non-decreasing clock.

## Model

| member | source | states |
|---|---|---|
| TicTacToe.FirstOwned | game.py:37-41 | The result is the first line, in scan order from k, whose three cells hold one mark. None means no line from k on is owned. |
| TicTacToe.CheckWinner | game.py:28-41 | A mark comes back exactly when some line is owned, and a line comes back with it. That line is owned by that mark and no earlier line in row/column/diagonal order is owned. It never yields a draw. |
| TicTacToe.IsBoardFull | game.py:43-45 | The board is full exactly when the marks fill every cell (X count + O count = cell count). |
| TicTacToe.MarkedCells | game.py:43-45 | The marks never outnumber the cells, and they fill the board exactly when no cell is empty. |
| TicTacToe.EmptyCells | game.py:43-49 | The list holds exactly the indices of empty cells, in increasing order. It is empty exactly when the board is full. |
| TicTacToe.ComputerMove | game.py:47-53 | A move comes back exactly when the board is not full and there is no winner, and it is always an empty cell. |
| TicTacToe.ComputerMoveReachesEveryEmptyCell | game.py:47-53 | Every empty cell is the reply for some random choice. |
| TicTacToe.Count | game.py:339 | The number of cells holding a mark is at most the board size. |
| TicTacToe.CountPlace | game.py:339 | Writing p into an empty cell adds one to p's count and leaves the other mark's count unchanged. |
| TicTacToe.CountEmpty | game.py:14 | A board of empty cells holds no mark. |
| TicTacToe.EmptyBoardIsFresh | game.py:14 | The empty board has nine cells, no owned line and no marks. |
| TicTacToe.NewLineBelongsToMover | game.py:339-346 | A line completed by the move belongs to the mover. |
| TicTacToe.Credit | game.py:345-346 | The winner's counter goes up by one and the other two counters are unchanged. |
| TicTacToe.Game.constructor | game.py:13-26 | Empty board, X to move, no winner, not over, "Play vs Computer", zero score. The invariant holds. |
| TicTacToe.Game.Place | game.py:339-355 | Only the chosen cell changes and occupancy grows by one. Then exactly one of three things happens: a win (winner, line, game over, the winner's score +1, the player stays), a draw (full board without a line: Draw, game over, draws +1), or the turn passes. Mark balance is kept. |
| TicTacToe.Game.Click | game.py:338-376 | An occupied cell or a finished game changes nothing. Otherwise the mark is placed, and the game settles (`Settle`): a line wins for the mover and credits their score, a full board is a draw and counts one, else the turn passes. In computer mode, a game still running gets O's reply in an empty cell, settled the same way for O from the score after the first move. The winning line is always CheckWinner's line for the final board. |
| TicTacToe.Game.ResetGame | game.py:55-61 | Empty board, X to move, no winner, not over. Score and mode are kept. |
| TicTacToe.Game.ResetScore | game.py:63-65 | All three counters are zero and the rest is kept. |
| TicTacToe.Game.SelectMode | game.py:291-293 | A new mode restarts the game and keeps the score. The same mode changes nothing. |
| Snake.NextHead | snakegame.py:36-45 | The new head is one step away, on the same column for UP/DOWN and the same row for LEFT/RIGHT. |
| Snake.OppositeUndoesStep | snakegame.py:36-45 | A step followed by the opposite step returns to the start cell. |
| Snake.Steer | snakegame.py:135-151 | The direction is never set to the reverse of the current one. The pressed direction is taken exactly when it is not the reverse. |
| Snake.Collides | snakegame.py:47-54 | A step that does not collide keeps the body on the grid and free of repeated cells, with the new head in front. |
| Snake.AutoDirection | snakegame.py:88-103 | Never the reverse direction, and a change always brings the head closer to the food. When the row distance is strictly larger, it turns Up (food above, not heading Down), else Down (food below, not heading Up), else keeps the direction. Otherwise it turns Left or Right by the same rule on the column axis. |
| Snake.SnakeGame.constructor | snakegame.py:14-21 | Snake (5,5),(5,4),(5,3) heading right, food (10,10), score 0, not over, not running. The invariant holds. |
| Snake.SnakeGame.NewFood | snakegame.py:26-31 | The result is the first draw off the snake, so it is in the grid and not on the body. None comes back only when every draw hits the snake. |
| Snake.SnakeGame.MoveSnake | snakegame.py:33-64 | A collision with a wall or the body (tail included) sets game over and changes nothing else. Food grows the snake by its new head and scores one. Any other step moves the head and drops the tail. The body stays distinct and on the grid, and length = score + 3. |
| Snake.SnakeGame.Press | snakegame.py:135-151 | The new direction is the Steer of the old one. |
| Snake.SnakeGame.AutoPlayMove | snakegame.py:88-103 | The new direction is AutoDirection of the head, the food and the old direction. |
| Snake.SnakeGame.ResetGame | snakegame.py:66-72 | The initial snake heading right, the given free food cell, score 0, not over, running. |
| RockPaperScissors.DecideWinner | rps_app.py:19-27 | A tie happens exactly when the choices are equal. The user wins exactly when their choice is one step after the computer's in Rock, Paper, Scissors, and the computer wins in the converse case. |
| RockPaperScissors.DecideWinnerSwaps | rps_app.py:19-27 | For distinct choices, the user wins (a, b) exactly when the computer wins (b, a). |
| RockPaperScissors.CountResult | rps_app.py:40-45 | The number of rounds with a given result is at most the number of rounds. |
| RockPaperScissors.WinsWithinRounds | rps_app.py:40-52 | User wins plus computer wins never exceed the rounds played. |
| RockPaperScissors.WinsNeeded | rps_app.py:136-137 | n // 2 + 1 is the least count that is more than half of n. |
| RockPaperScissors.Status | rps_app.py:135-146 | The user's banner shows exactly when a best-of target is set and the user reached it. The computer's banner shows exactly when the user did not reach it and the computer did. |
| RockPaperScissors.AtMostOneSideReachesTarget | rps_app.py:135-146 | Within n decided rounds, at most one side reaches the wins needed. |
| RockPaperScissors.UserBannerStays | rps_app.py:135-146 | Play goes on after the target is reached. Since scores only grow, the user's banner never goes away, and a match the computer won never reopens. |
| RockPaperScissors.Scoreboard.constructor | rps_app.py:29-38 | Zero scores and rounds, empty history. The invariant holds. |
| RockPaperScissors.Scoreboard.AddRound | rps_app.py:40-52 | Rounds +1. The winner's score +1, and neither score on a tie. One history entry numbered with the new round count is appended. The scores stay the counts of results in the history. |
| RockPaperScissors.Scoreboard.Play | rps_app.py:92-111 | A choice button decides the round with DecideWinner and records it as AddRound does. |
| RockPaperScissors.Scoreboard.ResetGame | rps_app.py:54-58 | Zero scores and rounds, empty history. |
| Quiz.CorrectIndexInRange | quizapp.py:4-45 | Every question's right answer is one of its options. |
| Quiz.CorrectAmongAddOne | quizapp.py:68-74 | Visiting one more answered question adds one to the count exactly when its answer is right. |
| Quiz.IndexSetBounded | quizapp.py:68-74 | Answers are keyed by question index, so there are at most as many as there are questions. |
| Quiz.PercentageAtLeast | quizapp.py:98-113 | The test score / total * 100 >= b holds exactly when 100 * score >= b * total. |
| Quiz.ResultBand | quizapp.py:94-115 | Excellent exactly when 5 * score >= 4 * total. Good exactly when 3 * total <= 5 * score < 4 * total. Keep studying otherwise. |
| Quiz.QuizSession.constructor | quizapp.py:47-58 | First question, zero score, no answers, not completed, no results. The invariant holds. |
| Quiz.QuizSession.CalculateScore | quizapp.py:68-74 | The count is the number of stored answers equal to their question's right option. It is at most the number of answers, which is at most the number of questions. |
| Quiz.QuizSession.Select | quizapp.py:184-188 | In the question view, only the current question's answer is overwritten. |
| Quiz.QuizSession.Previous | quizapp.py:193-197 | Stores the answer, then steps back by one unless on the first question. The cursor stays on a question. |
| Quiz.QuizSession.Next | quizapp.py:199-203 | Stores the answer, then steps forward by one unless on the last question. The cursor stays on a question. |
| Quiz.QuizSession.Finish | quizapp.py:204-207 | Completes the quiz only on the last question, without moving the cursor. A completed quiz has every question answered. |
| Quiz.QuizSession.ShowResults | quizapp.py:175-178 | The results screen opens only after completion. |
| Quiz.QuizSession.ResetQuiz | quizapp.py:60-66 | First question, zero score, no answers, not completed, no results. |
| EventRegistration.Lead | eventregistration.py:97 | The leading run of whitespace: every character before the result is whitespace and the one at it is not. |
| EventRegistration.Trail | eventregistration.py:97 | The end of the last non-whitespace character: every character from the result on is whitespace and the one before it is not. |
| EventRegistration.Strip | eventregistration.py:97-102 | The result is a slice with only whitespace cut from either end, and its ends are not whitespace. It is empty exactly when the string is all whitespace. |
| EventRegistration.StripIdempotent | eventregistration.py:119 | Stripping twice is stripping once. |
| EventRegistration.Lower | eventregistration.py:109-110 | Same length, each character lower-cased, no upper-case letter left. |
| EventRegistration.LowerIdempotent | eventregistration.py:109-110 | Lower-casing twice is lower-casing once. |
| EventRegistration.IndexOf | eventregistration.py:49-52 | The first position of the character, or None when it is absent. |
| EventRegistration.LastIndexOf | eventregistration.py:49-52 | The last position of the character, or None when it is absent. |
| EventRegistration.SplitIsUnique | eventregistration.py:49-52 | In any split that fits the pattern, the '@' is the first one and the '.' is the last one. |
| EventRegistration.ShapeMatchesPattern | eventregistration.py:49-52 | The scan accepts exactly the strings of the form local '@' domain '.' letters{2,}. |
| EventRegistration.IsValidEmail | eventregistration.py:49-52 | re.match with `^...$`: on a string that is empty or does not end in a newline, it accepts exactly the strings of the pattern. |
| EventRegistration.StrippedEmailMatchesPattern | eventregistration.py:49-52 | On a stripped email, re.match (whose `$` also allows one trailing newline) agrees with the pattern. |
| EventRegistration.AcceptedHasOneAt | eventregistration.py:49-52 | An accepted address holds exactly one '@'. |
| EventRegistration.LowerCharKeepsClasses | eventregistration.py:120 | Lower-casing a character keeps it in each of the pattern's classes. |
| EventRegistration.LowerKeepsSplit | eventregistration.py:120 | Lower-casing keeps a split of the address at the same positions. |
| EventRegistration.LowerKeepsPattern | eventregistration.py:120 | The lower-cased form of an accepted address is accepted. |
| EventRegistration.ExistingEmails | eventregistration.py:109 | One lower-cased email per record, in order. |
| EventRegistration.Validate | eventregistration.py:95-111 | Each message appears exactly when its condition holds: blank name; blank email; a non-blank email the regex rejects; no event; a stripped, lower-cased email some record already has. The messages come in check order. |
| EventRegistration.InvalidEmailMeansPatternMismatch | eventregistration.py:100-103 | The format message appears exactly for a non-blank email outside the pattern. |
| EventRegistration.AppendIf | eventregistration.py:95-111 | The message is added exactly when its check failed, and the list stays in check order. |
| EventRegistration.IsRegistered | eventregistration.py:109-110 | True exactly when some record's lower-cased email equals the given one. |
| EventRegistration.StoredEmailMatchesPattern | eventregistration.py:102-120 | The stored (stripped, lower-cased) form of an accepted email matches the pattern. |
| EventRegistration.AcceptedEmailMatchesPattern | eventregistration.py:113-120 | A submission with no message stores an email that matches the pattern. |
| EventRegistration.AcceptedKeepsDistinct | eventregistration.py:109-126 | A submission with no message stores an email no record has, so the emails stay distinct. |
| EventRegistration.AppendKeepsDistinct | eventregistration.py:109-126 | Appending a lower-case email that fails the duplicate test keeps the emails pairwise distinct. |
| EventRegistration.TodayCount | eventregistration.py:153-154 | The count of records whose time starts with today's date is at most the number of records. |
| EventRegistration.TodayCountAppend | eventregistration.py:153-154 | A new record adds one to today's count exactly when it was made today. |
| EventRegistration.LatestEventLabel | eventregistration.py:148-149 | Names of up to 20 characters are shown whole. Longer ones are shown as their first 20 characters followed by "...". |
| EventRegistration.Registry.constructor | eventregistration.py:55-57 | The loaded records, with the count equal to their number. |
| EventRegistration.Registry.Submit | eventregistration.py:95-127 | The messages are Validate's. With none, the record holding the stripped name and the stripped, lower-cased email is appended and the count grows with it. With any, nothing changes. Distinct emails stay distinct. |
| EventRegistration.Registry.Clear | eventregistration.py:254-255 | No records and a zero count. |
| Stopwatch.Stopwatch.CurrentTime | stopwatch.py:156-160 | While stopped, the stored elapsed time. With a start time not after now, never below the stored elapsed time. |
| Stopwatch.Stopwatch.DisplayStatus | stopwatch.py:166-180 | RUNNING exactly while running. STOPPED exactly when stopped with positive time on the display. READY exactly when stopped with no time on the display. |
| Stopwatch.Stopwatch.CurrentTimeMonotone | stopwatch.py:156-160 | With the clock not going back, the current time never decreases and never falls below the stored elapsed time. |
| Stopwatch.Stopwatch.constructor | stopwatch.py:141-148 | No start time, zero elapsed, not running, no laps. |
| Stopwatch.Stopwatch.Start | stopwatch.py:192-196 | When stopped, the start time becomes now and it runs. Running state otherwise kept. The current time does not decrease. |
| Stopwatch.Stopwatch.Stop | stopwatch.py:199-204 | When running, the elapsed time becomes the current time and it stops with no start time. The displayed time is kept. |
| Stopwatch.Stopwatch.Reset | stopwatch.py:207-212 | No start time, zero elapsed, not running, no laps; the display reads zero and READY. |
| Stopwatch.Stopwatch.Lap | stopwatch.py:215-219 | When running or with positive time on the display, exactly the current time is appended. The laps stay non-decreasing and never exceed the current time. |
| Stopwatch.BestLap | stopwatch.py:237 | The best lap is one of the laps and no lap is smaller. |
| Stopwatch.SumAtLeast | stopwatch.py:235 | n laps, none below lo, add up to at least n * lo. |
| Stopwatch.MeanAtLeast | stopwatch.py:235 | k values adding up to at least k * lo have a mean of at least lo. |
| Stopwatch.BestLapAtMostMean | stopwatch.py:235-237 | The best lap is never above the average lap. |
| Stopwatch.AverageLap | stopwatch.py:235 | The average lap is never below the best lap. |
| Stopwatch.BestOfOrderedLapsIsFirst | stopwatch.py:215-237 | Laps recorded in order have the first lap as the best. |
| Ranking.ConsSorted | appropriate.py:189 | Putting an element with a key not below the head's in front of an ordered list keeps it ordered. |
| Ranking.Insert | appropriate.py:189 | Insertion keeps the list ordered and adds exactly one copy of the element. |
| Ranking.SortDesc | appropriate.py:189 | The result is ordered highest key first and is a permutation of the input. |
| Ranking.SortDescKeepsSorted | appropriate.py:189 | An already ordered list comes back unchanged. |
| Ranking.FirstHasLargestKey | appropriate.py:189 | The head of an ordered list has the largest key. |
| Recommender.EmbeddingCandidatesSorted | appropriate.py:116-187 | Every candidate list is non-empty and already in score order. |
| Recommender.EmbeddingRecommendations | appropriate.py:113-189 | Non-empty and sorted by score. Code Search gives [CodeBERT 95, ada-002 85], Scientific/Medical gives [BioBERT 95, SciBERT 90], Multimodal gives [CLIP 95]. Any other domain gives one model by budget: MiniLM 85, ada-002 95 or mpnet 90. |
| Recommender.MissingFirstCharacter | appropriate.py:218 | A string without the first character of a word does not contain the word. |
| Recommender.VolumeLabelsMentioningLarge | appropriate.py:61 | Of the four volume labels, exactly "Large ..." and "Very Large ..." contain "Large". |
| Recommender.VectorDbCandidatesSorted | appropriate.py:198-254 | Every candidate list is non-empty and already in score order. |
| Recommender.VectorDbRecommendations | appropriate.py:191-256 | Non-empty and sorted by score. Small gives Chroma for beginners, else FAISS. A label containing "Large" gives Pinecone for Cloud/Managed, else Milvus. Anything else gives [Qdrant 92, Weaviate 88]. |
| Recommender.SetupDays | appropriate.py:302 | 2 days for Easy, 5 for Medium, 10 otherwise. |
| Recommender.OptimalCombination | appropriate.py:292-302 | The stack is the first model and the first database of their sorted lists, so each scores at least as high as every other entry. The days are SetupDays of that database's difficulty: 2, 5 or 10. |
| Recommender.Passes | appropriate.py:449-454 | A passing row is within the budget. With both selectboxes on "All", a row passes exactly when it is within the budget. |
| Recommender.Filter | appropriate.py:449-454 | Exactly the rows passing the type, open-source and budget filters remain, and the list is no longer than before. |
| Recommender.FilteredVectorDbs | appropriate.py:406-455 | The rows passing the filters, as a permutation of the filtered table. Sorted highest first on the chosen column, except setup difficulty, which sorts easiest first. |
| Recommender.EaseOfSetup | appropriate.py:512 | For a difficulty of 1 to 10, the value is a multiple of 10 between 0 and 90. |
| Recommender.EaseOfSetupReversesDifficulty | appropriate.py:512 | An easier setup gets a strictly higher radar value, and conversely. |
| Recommender.TableEntriesBounded | appropriate.py:654-681 | Every score-table entry, defaults included, lies between 3 and 10. |
| Recommender.FirstWord | appropriate.py:670 | The result is the prefix up to the first space: it has no space and is followed by a space or the end. |
| Recommender.ShortKey | appropriate.py:670-675 | The attribute holds no space. It is the label's first word, except that "Scalability" becomes "Scale". |
| Recommender.FirstWordIs | appropriate.py:670 | Any space-free prefix that ends the key or stops at a space is its first word. |
| Recommender.FirstWordOfWord | appropriate.py:670 | A key without spaces is its own first word. |
| Recommender.SliderLabelsMapToAttributes | appropriate.py:645-676 | The five slider labels map to Performance, Cost, Ease, Scale and Features. |
| Recommender.CalculateScore | appropriate.py:654-681 | The score is half the sum, over the weights, of (embedding value + database value) * weight. |
| Recommender.WeightedSum | appropriate.py:668-679 | For a pair missing from both tables, every attribute takes the default 5 on each side, so the sum is 10 times the total weight. |
| Recommender.TermBounds | appropriate.py:678-679 | A non-negative weight's term lies between 6 and 20 times the weight. |
| Recommender.WeightedSumBounds | appropriate.py:676-681 | With non-negative weights, the sum lies between 6 and 20 times the total weight. |
| Billing.SafeKey | restaurantbilling.py:20-21 | Same length. Letters and digits are kept in place and every other character becomes '_'. The key holds only letters, digits and '_'. |
| Billing.SafeKeyIdempotent | restaurantbilling.py:20-21 | Sanitising a key again changes nothing. |
| Billing.SafeKeyCollision | restaurantbilling.py:20-21 | Two strings of equal length get the same key exactly when they agree wherever either has a letter or digit. |
| Billing.MenuPricesPositive | restaurantbilling.py:70-116 | Every menu price is positive. |
| Billing.PositiveIndices | restaurantbilling.py:175-184 | Exactly the positions of the positive quantities, in strictly increasing order, so each appears once. |
| Billing.Selection | restaurantbilling.py:175-184 | Only items with positive quantity appear, each with its menu price and quantity. Every such item appears. |
| Billing.SelectionFollowsMenuOrder | restaurantbilling.py:156-184 | The j-th selected item is the menu item at the j-th positive position. So the selection holds each chosen item once, in menu order. |
| Billing.FollowsPrefix | restaurantbilling.py:175-184 | Selected items drawn from the first n menu entries read the same against the whole menu. |
| Billing.FollowsAppend | restaurantbilling.py:183-184 | Entering the item at position n extends the selection and its positions in step. |
| Billing.SelectionQuantitiesBounded | restaurantbilling.py:175-184 | Selected quantities lie between 1 and 50. |
| Billing.SelectItems | restaurantbilling.py:163-184 | The menu loop's selected items are the Selection of the menu and the quantities. The j-th entry is the menu item at the j-th positive position, so each item appears once, in menu order. |
| Billing.RowOf | restaurantbilling.py:198-204 | A row holds the item, quantity, unit price and unit price * quantity. |
| Billing.BuildBill | restaurantbilling.py:196-206 | One row per selected item, in order. The subtotal is the sum of the line totals and equals the value of the order. |
| Billing.OrderValuePositive | restaurantbilling.py:191-206 | A non-empty order of positive prices and quantities has a positive subtotal. |
| Billing.TaxCents | restaurantbilling.py:209-211 | The tax, in hundredths, is rate percent of the subtotal, and at most 30 percent of it. |
| Billing.TotalCents | restaurantbilling.py:209-213 | Tax adds between 0 and 30 percent on top of the subtotal. The total lies between subtotal + tip and 1.3 * subtotal + tip, and equals subtotal + tip at a zero rate. |

## Left out

- Streamlit rendering: page configuration, HTML and CSS, columns, reruns, balloons, charts, tables, download buttons and widget disabling. A handler is modelled as the method its button runs.
- Random choices are parameters. The computer's tic-tac-toe reply is `pick` modulo the number of empty cells, and the computer's rock-paper-scissors choice is an argument. The snake's new food is an argument constrained to a free in-grid cell.
- Snake.SnakeGame.NewFood: the retry loop runs over a finite sequence of draws and returns None when all of them hit the snake. The unbounded loop may never end on a full grid.
- Clock readings (`time.time`, `datetime.now`) are integer or string parameters. `time.sleep` is left out.
- CSV and PDF I/O: loading, saving and deleting the registration file, and the invoice CSV and PDF. The `@st.cache_data` reload is also left out, so the registry starts from the given records.
- Registry.Clear is modelled as a single action. The nested confirmation button, and the Streamlit question of whether it can ever fire, are not part of this model.
- The snake's tick loop (one `move_snake` per rerun while running) is not modelled, only a single step.
- Floating point:
  - `format_time`, the progress bar and the TCO calculator are left out.
  - The lap average is an exact real.
  - Billing amounts are exact integers (whole currency units, and hundredths for tax, tip and total). `round(..., 2)` is the identity on such values, so binary floating-point error is not modelled.
- Billing.TotalCents: the tip is an integer number of hundredths. The source rounds a float tip to two decimals.
- EventRegistration.Lower and Billing.SafeKey: ASCII only. Python's `str.lower` and `str.isalnum` also act on non-ASCII letters and digits. `Strip` uses Python's full `str.isspace` set.
- Recommender.FirstWord: splits on the space character only. Python's `str.split()` splits on any whitespace, which the fixed slider labels do not contain.
- Recommender.FilteredVectorDbs: the sort is one stable descending sort. pandas' `sort_values` does not promise stability, so rows with equal keys may come out in another order there. The description, max-vector, real-time, hybrid-search, multi-tenancy and best-for columns are dropped.
- The embedding-model table of the "Embedding Models" tab (its domain and cost filter and sort), the radar chart apart from its "ease" value, the decision-path view and the admin search, export and metrics of the registration app are not part of this model.
- The currency symbol, the hub selector and the invoice text in the billing app are not part of this model. The bill is built for the selected items of one hub's menu. The `st.stop()` on an empty selection means no bill exists for it, which `BuildBill` does not need.
- BMI.py, gym.py, hydration.py, unitconverter.py and currencyconverter.py are not part of this model.
