# Verified models of Libcurses, LibcAT and Libedit

This project models the parts of three libraries whose correctness is hard to see from
the code, and proves what they promise for every input, every state and every run.

**The curses screen update.** A window keeps an interval of columns per line that may
have changed; `curscr` records what the terminal shows; a refresh repaints what differs.
The model has the editing operations, the refresh with its search for a block of lines
that only moved, the in-place rotation of `curscr`, the scroll commands, and the cursor
motion planner with its dry-run pricing. Everything the library sends is a list of
commands, and their meaning is given by an interpreter of a character-cell terminal
(`Terminal`), which treats every move off the screen and every undocumented effect as an
error. The main results: any sequence of calls keeps the dirty intervals sound, so a
refresh leaves `curscr` equal to the window except possibly in the bottom right corner;
the rotation moves each line exactly once, whatever the greatest common divisor of the
shift and the region size; the window's text is the fold of the text operations over the
calls; and on terminals that meet the stated conditions a condition on the state before a
refresh decides what comes of it: if it holds, the terminal shows `curscr` afterwards and has
its cursor where the library believes it; if not, a line feed has left the last row or a
scroll has gone wrong, without `curscr` being told. What the planner's estimates are worth is
said by counting the commands of the plans it chooses from.

**The read-write lock.** Threads interleave atomic critical sections, waits and spurious
wakeups. Every run keeps the counters true, keeps writers alone, and loses no wakeup, and a request is
granted exactly when no thread holds the lock in a way that stands against it.

**The extended-key trie.** The linked tree refines a finite map in which no key is a
prefix of another, and reading a key consumes exactly the bound key that the input starts
with. The printed form of keys and strings parses back exactly when no control character
is involved (and, for strings where `char` is signed, no byte from 0200 on).

**AppleTalk codecs and framing.** Packing and walking NBP tuples and the filter of
duplicate replies; the ASP request stream over TCP, with fragmentation, tickles, parked
headers and write continuations; and the relocation of the server's status block.

**The history ring and its navigation.** The circular list refines a bounded list of
events with a cursor, and the previous-line and next-line commands show the line that
belongs to the place and keep the unfinished line, with the exact cases where they do not.

Code that changes state is modelled by classes and methods over the same fields, proved
against functions on values; the lemmas are about those functions.

## Where the code differs from its comments and documentation

- Libcurses/refresh.c:248-251 moves the output position down a line before it paints a dirty
  line below one that the cursor ran off, whatever row the position is on. From the last row
  this scrolls the terminal, and curscr is not told. `Refresh.Screen.RefreshStays` says of
  the state before a refresh whether that happens, `Refresh.Screen.Wrefresh` that the
  terminal stays in step if it does not, and that something has gone astray if it does.
  `Refresh.Screen.ScrolledAwayShows` says that after the scroll the terminal differs from
  curscr unless curscr is blank (a scroll of a blank screen counts as going astray too, though
  it does not show). `Refresh.ScrollsAway` gives a run of four calls where the terminal's
  first row is no longer curscr's: on a screen of two lines of five columns, write "abcde" and
  a newline, refresh, write "x", refresh.
- Libcurses/refresh.c:766-779 scrolls the whole screen when SF or sf is there without a
  scrolling region, against the comment at 724-729, and goes on as if the cursor were on
  line 0, though it is on line bot. `Scroll.ScrollUpWorksIff` gives the exact condition
  under which the region is scrolled all the same (`Scroll.ScrollWorks`): it ends on the last
  line, and the next motion addresses the cursor or starts at the lower left corner.
- Libcurses/cr_put.c:410-422 prints the characters it passes over. Without ND it writes a
  blank over a standout character: `CursorPlan.MotionKeepsScreenIff` gives the exact
  condition on the cells passed over under which the screen is unchanged,
  `CursorPlan.WithoutNdStandoutIsWiped` a case where it is not.
- Libcurses/cr_put.c:250 overwrites the price of the way from the home position with that of
  the backspaces that would make it unnecessary. A cursor that backspaces could bring to its
  column is therefore homed from everywhere more than twice as far down as its destination,
  however long the way across the row: `CursorPlan.HomesIff` says exactly when homing is chosen
  on a terminal without tabs, `CursorPlan.HomingPays` exactly when it does not cost more
  commands than going directly, with tabs or without, and `CursorPlan.HomingExample` gives a
  move of 23 commands that becomes one of 68.
- Libedit/parse.c:213 tests whether the caret itself is a letter, so ^X is never decoded:
  `KeyText.ControlExample`.
- Libedit/parse.c:209 returns the character behind a backslash as a signed int where char is
  signed. 0377 is then mistaken for the -1 that reports an invalid escape
  (`KeyText.EscapedByteParses`).
- Libedit/key.c:736 shifts a signed character: on such machines bytes from 0200 on come out
  with a first octal digit of 6 or 7, which the parser refuses: `KeyText.SignedExample`.
- Libedit/key.c:190 says that the last character read is left in *ch, but key.c:322-324 puts
  zero there after a binding that is not a command: `KeyTree.LeavesLastRead`.
- LibcAT/asp_if.c:713-716 takes an error code of zero to mean "the whole message": a write
  with an empty command block and some data reaches the server as a request without data
  (`AspExchange.MistakenExample`).
- LibcAT/asp_if.c:1252-1257 adds the same amount to three offset fields wherever they
  point; `AspStatus.OffsetsFollow` says exactly when that is right, and
  `AspStatus.OffsetsExample` gives a block where it is not.
- Libedit/common.c:758-763 sets the place to the unfinished line when it is asked to go too
  far, but leaves the old line on the screen; `HistoryWalk.ForthKeepsDraft` says exactly
  when the unfinished line survives.

## Model

| member | source | states |
|---|---|---|
| CursorPlan.DryCostIsExact | Libcurses/cr_put.c:205-213 | Outside a refresh the price a dry run charges is exactly the number of characters the plan sends. |
| CursorPlan.DryCostInRefresh | Libcurses/cr_put.c:402-422 | Inside a refresh it is too, where nothing in the destination's row is in standout. |
| CursorPlan.LocalOnlyIfShorter | Libcurses/cr_put.c:180-192 | Local motion is used only when it is strictly shorter than the CM string, and whenever it is, unless the cursor is in the last column or the plan is impossible; so what is sent is never longer than CM. |
| CursorPlan.MotionUsesWhatItHas | Libcurses/cr_put.c:216-433 | No command is sent that needs a capability the terminal lacks. |
| CursorPlan.FrontRuns | Libcurses/cr_put.c:228-400 | Homing, return, line feeds, backspaces, up moves and tabs together change nothing but the cursor, and bring it to the destination row, at or left of the destination column. |
| CursorPlan.RightsRun | Libcurses/cr_put.c:401-426 | The right moves end at the destination and can change only the cells passed over. |
| CursorPlan.PlanLength | Libcurses/cr_put.c:216-433 | The number of commands of a plan: those of the way without homing, or one more than the way from the corner it homes to. |
| CursorPlan.DirectlyCounts | Libcurses/cr_put.c:285-426 | How many commands that way has: the rows between, and the way across the row, backspaces, or a return and the way from the margin. |
| CursorPlan.SameRowHomes | Libcurses/cr_put.c:228-270 | Within its row a cursor is homed if and only if it has to go left in row 0 and backing up is impossible or looks dearer. |
| CursorPlan.HomesIff | Libcurses/cr_put.c:228-270 | Without tabs a cursor is homed if and only if that takes no more commands than going directly, with two exceptions: where it would back up it is homed exactly from more than twice as far down, and from row 0 it is homed on its way down and left. |
| CursorPlan.HomingPays | Libcurses/cr_put.c:228-270 | With or without tabs, homing that is not forced takes no more commands than going directly, if and only if neither exception costs some. |
| CursorPlan.HomingExample | Libcurses/cr_put.c:248-250 | A move five columns back and eighteen rows up that homes and takes 68 commands instead of 23. |
| CursorPlan.NotHomingPays | Libcurses/cr_put.c:228-284 | Going directly takes no more commands than homing would have, or at most five more with tabs. |
| CursorPlan.LowerLeftPays | Libcurses/cr_put.c:271-283 | Homing down takes fewer commands than going directly, if and only if the code would not back up, or the way across the row from the margin is short enough all the same. |
| CursorPlan.NotLowerLeftPays | Libcurses/cr_put.c:271-283 | Not homing down costs at most one command more, and five with tabs, unless the line feeds on the way return to the margin. |
| CursorPlan.ReturnPays | Libcurses/cr_put.c:317-329 | A return is sent only if backspaces are impossible, or more than the return and the way from the margin; without it they are at most as many, and five with tabs. |
| CursorPlan.OvertabPays | Libcurses/cr_put.c:386-399 | A tab past the destination is taken only if it saves commands, and from a tab stop whenever it does. |
| CursorPlan.MotionReaches | Libcurses/cr_put.c:178-195 | From every position on the screen to every other, for every set of capabilities without NC and with CA or UP, the commands end exactly at the destination and change at most the cells passed over on the final right moves. |
| CursorPlan.HarmlessIff | Libcurses/cr_put.c:406-422 | Passing over cells leaves them as they are if and only if there is ND, or each of them is outside standout with standout off in a refresh, or is the blank that is printed instead. |
| CursorPlan.MotionKeepsScreenIff | Libcurses/cr_put.c:178-195 | Under that condition on the row, the standout mode and ND, and only then, a motion changes nothing but the cursor. |
| CursorPlan.WithoutNdStandoutIsWiped | Libcurses/cr_put.c:411-422 | A concrete screen and terminal without ND on which a move inside a refresh wipes a standout character. |
| CursorPlan.MotionToMarginIsHarmless | Libcurses/cr_put.c:178-195 | A move to column 0 never changes the screen. |
| CursorPlan.TravelOnScreen | Libcurses/cr_put.c:113-177 | Between positions on the screen the rounding for margins and the rolling add nothing to the motion. |
| CursorPlan.BelowTheScreenScrolls | Libcurses/cr_put.c:141-177 | On every terminal with CA and without NC, a destination one line below the screen scrolls it up by exactly one line, changes nothing else and leaves the cursor at the start of the last line (with NONL and PF together, in a column that is not said). |
| CursorPlan.FarBelowScrolls | Libcurses/cr_put.c:141-177 | From any position, a destination n lines below the screen scrolls it up by exactly n lines and is reached in the last one, where line feeds move as the code believes (not with NONL and PF together); with ND nothing else changes outside a refresh. |
| CursorPlan.DestinationFolds | Libcurses/cr_put.c:113-118 | A destination past the right margin is the position on a later line that comes as many cells later. |
| CursorPlan.SourceWraps | Libcurses/cr_put.c:119-140 | With AM the column behind the margin is the start of the next line, or of the last one after a scroll. |
| CursorPlan.RollsRun | Libcurses/cr_put.c:119-140 | Without AM the wraps are carried out: each goes to the start of the next line, or scrolls the screen on the last one. |
| CursorPlan.PastMarginReaches | Libcurses/cr_put.c:113-140 | A motion from past the margin then arrives at its destination, which has moved up with the screen if that was scrolled. |
| CursorPlan.ScrollShowsUnlessBlank | Libcurses/cr_put.c:141-177 | A screen looks the same after scrolling up by a line if and only if it is blank. |
| CursorMotion.Mover.Plodput | Libcurses/cr_put.c:205-213 | Sends a command, or in a dry run charges its length. |
| CursorMotion.Mover.ConsiderHoming | Libcurses/cr_put.c:228-284 | Homes or homes down in exactly the cases the estimates favour, and leaves the position updated. |
| CursorMotion.Mover.ConsiderReturn | Libcurses/cr_put.c:285-337 | Sends the carriage return in exactly the cases the code allows. |
| CursorMotion.Mover.FeedDown | Libcurses/cr_put.c:339-349 | Line feeds down to the row; a dry run stops early only when its allowance is spent. |
| CursorMotion.Mover.BackUp | Libcurses/cr_put.c:350-368 | Backspaces to the column, with the same early stop. |
| CursorMotion.Mover.ClimbUp | Libcurses/cr_put.c:369-374 | Up moves to the row, with the same early stop. |
| CursorMotion.Mover.TabTowards | Libcurses/cr_put.c:375-385 | Tabs to the last stop at or before the destination; the loop ends. |
| CursorMotion.Mover.Overtab | Libcurses/cr_put.c:386-399 | One tab past the destination and backspaces, when that is allowed. |
| CursorMotion.Mover.MoveRight | Libcurses/cr_put.c:401-426 | Right moves to the column, with the characters passed over in a refresh. |
| CursorMotion.Mover.Plod | Libcurses/cr_put.c:216-433 | A real run sends exactly the plan. A dry run sends nothing, restores the position, and returns a positive value if and only if the plan is possible and costs less than its allowance. |
| CursorMotion.Mover.Reach | Libcurses/cr_put.c:178-195 | Sends exactly the motion the planner decides on. |
| CursorMotion.Mover.Unwrap | Libcurses/cr_put.c:113-140 | Columns past the margin are counted as positions on later lines, with the returns and line feeds this takes. |
| CursorMotion.Mover.Fgoto | Libcurses/cr_put.c:106-195 | Everything sent for any source and destination, including destinations below the screen. |
| CursorMotion.Mover.Mvcur | Libcurses/cr_put.c:90-104 | The same as a function of the arguments; the position becomes the destination. |
| Rotation.SlotDistinct | Libcurses/refresh.c:594-616 | Within one period no line is visited twice. |
| Rotation.SlotReaches | Libcurses/refresh.c:605-616 | A period reaches every line of its residue class modulo the greatest common divisor of region size and shift. |
| Rotation.NextStartIsFresh | Libcurses/refresh.c:611-616 | The line after the end of a period has not been moved yet, unless all have: the claim the comment asks the reader to think about. |
| Rotation.FilledStep | Libcurses/refresh.c:630-680 | Each step of the walk reaches one line that was not reached before, and no other. |
| Rotation.FilledCycle | Libcurses/refresh.c:672-675 | Closing a period is the same as having moved a whole residue class. |
| Rotation.AllFilled | Libcurses/refresh.c:630-680 | When the periods are done every line has been moved. |
| Rotation.StepCount | Libcurses/refresh.c:630-630 | The walk takes exactly as many steps as the region has lines. |
| Quickch.MatchLength | Libcurses/refresh.c:525-534 | How many leading lines of two blocks agree and are not to be repainted. |
| Quickch.FindBlock | Libcurses/refresh.c:521-542 | Finds an unchanged block of the largest size of at least the threshold, or reports that there is none; of several it finds the first in the order of the search. |
| Quickch.SearchFinds | Libcurses/refresh.c:521-542 | If there is a block of n lines still to come in the search, it ends with one at least as large. |
| Quickch.SourceOfTarget | Libcurses/refresh.c:631-631 | The target row is the row shifted modulo the region, and each target has exactly this source. |
| Quickch.RotatedStep | Libcurses/refresh.c:630-680 | Placing a line in its target, which still held its own line, takes a correct partial rotation to the next. |
| Quickch.NextCycle | Libcurses/refresh.c:672-675 | The line where the next period starts is still the old one. |
| Quickch.PlaceLine | Libcurses/refresh.c:633-668 | The line is placed, blanked if it scrolled in, and its window line marked clean inside the block and dirty from end to end elsewhere. |
| Quickch.Rotate | Libcurses/refresh.c:626-680 | In place, every line of the region ends at the row shifted by n modulo the region, rows scrolled into are blank, lines outside are untouched; the same for the marks. The preload below the region is never used. |
| Scroll.Scrolln | Libcurses/refresh.c:711-847 | The commands sent are a function of the arguments and capabilities, and no call of abort is reachable unless setterm has ruled quick changes out. |
| Scroll.NoQuickChangeIff | Libcurses/setterm.c:179-182 | Quick changes are ruled out on a terminal if and only if scrolling up or scrolling down would abort, whatever the region. |
| Scroll.RegionScroll | Libcurses/refresh.c:745-760 | Setting a region, homing, scrolling at its edge and resetting the region scrolls exactly that region and puts the cursor back. |
| Scroll.LinesScroll | Libcurses/refresh.c:765-797 | Deleting and inserting lines in that order does the same. |
| Scroll.ScrollUpEffect | Libcurses/refresh.c:745-797 | Scrolling up shows exactly rows top to bot shifted up by n with blank rows below, every other row unchanged and the cursor where it was. |
| Scroll.ScrollDownEffect | Libcurses/refresh.c:798-846 | The same downwards. |
| Scroll.WholeScreenScrollBreaks | Libcurses/refresh.c:766-779 | The branches that scroll the whole screen from a row above the last one never scroll the region: they scroll from where a terminal need not scroll at all. |
| Scroll.FromTheBottom | Libcurses/refresh.c:766-791 | The motion the code makes from the last line while it believes the cursor on line 0 reaches its row, or else scrolls the screen once for every line of the way. |
| Scroll.WholeScreenScrollIff | Libcurses/refresh.c:766-797 | For a region that ends on the last line, scrolling the whole screen is scrolling the region if and only if the code then addresses the cursor or goes down from the lower left corner; otherwise everything is blanked before the cursor goes back, which shows as soon as a row of the result other than the cursor's is not blank. |
| Scroll.ScrollUpWorksIff | Libcurses/refresh.c:745-797 | For every region, scrolling up works if and only if those branches are not taken, or the region ends on the last line and the code finds its way from there; else something has gone astray. |
| Scroll.WholeScreenScrollExample | Libcurses/refresh.c:766-768 | A terminal and a screen on which one of them is taken. |
| Scroll.WholeScreenFeedsExample | Libcurses/refresh.c:766-791 | A terminal on which line feeds are cheaper than CM, so that the screen is blanked. |
| WindowText.TypingIsRowMajor | Libcurses/addbytes.c:84-158 | A run of ordinary characters is laid out row by row from the cursor, wrapping at the margin: the k-th lands k cells on, and no other cell changes. |
| WindowText.OrdinaryStep | Libcurses/addbytes.c:95-158 | One ordinary character fills exactly the next cell in that order. |
| WindowText.SpacesTyped | Libcurses/addbytes.c:87-92 | Blanks typed as characters and blanks filled in for a tab are the same, however many. |
| WindowText.TabMeans | Libcurses/addbytes.c:87-92 | A tab goes to the next multiple of eight, blanks the cells up to there in the window's mode and changes no other; a stop at the margin leaves the cursor in the last column, run off. |
| WindowText.TabIsSpaces | Libcurses/addbytes.c:87-92 | Wherever the stop is, a tab is as many blanks as columns are missing to it. |
| WindowText.ReturnAndBackspaceMean | Libcurses/addbytes.c:166-172 | A return goes to column 0, a backspace one column to the left if there is one, and nothing else changes. |
| WindowText.NewlineMeans | Libcurses/addbytes.c:159-165 | A newline blanks the rest of its row (after a run-off line the next row), and goes to the start of the next row, with NONL too; on the last row everything then scrolls up, or the newline fails where that is not allowed. |
| WindowText.OrdinaryAtBottom | Libcurses/addbytes.c:95-158 | A character behind a run-off last row scrolls everything up and stands at the start of the new row, or fails where scrolling is not allowed. |
| WindowText.StoredAtEnd | Libcurses/addbytes.c:174-175 | A string typed to its end leaves the running cursor in the window. |
| WindowText.SpacesStore | Libcurses/addbytes.c:87-92 | The nested call for a tab stores no cursor unless it comes to its end. |
| WindowText.TypingFailsUnscrolled | Libcurses/addbytes.c:99-106 | No byte fails in a window that may scroll. |
| WindowText.TypeByteKeepsShape | Libcurses/addbytes.c:84-176 | No byte changes the size of the text or takes the cursor out of it. |
| WindowText.DeleteCharMeans | Libcurses/delch.c:67-82 | Deleting a character closes up the row from the cursor on, blanks its last cell and changes no other. |
| WindowText.ClearToEolMeans | Libcurses/clrtoeol.c:65-98 | Exactly the cells from the cursor to the end of the row become blank, or those of the next row if the cursor ran off. |
| WindowText.ClearToBottomMeans | Libcurses/clrtobot.c:65-94 | Exactly the cells from the cursor on become blank, row by row to the bottom. |
| WindowText.EraseMeans | Libcurses/erase.c:65-91 | Every cell becomes blank and nothing else changes. |
| WindowText.LinesMean | Libcurses/insertln.c:67-101 | Deleting and inserting a line leave the rows above and the cursor and move the others by one. |
| WindowText.MoveMeans | Libcurses/move.c:65-82 | A move inside the window takes the cursor there and drops the marks of the two rows; any other is refused. |
| WindowText.ScrollMeans | Libcurses/scroll.c:65-90 | A scroll moves every row up by one, drops all marks and leaves the cursor. |
| Windows.TracksTrans | Libcurses/touchwin.c:109-138 | Edits that each mark what they change mark together what they change. |
| Windows.Window.constructor | Libcurses/initscr.c:96-104 | A new window is blank and clean. |
| Windows.Window.Touchline | Libcurses/touchwin.c:109-138 | The interval grows by the given columns, or becomes them if the line was clean. |
| Windows.Window.Touchwin | Libcurses/touchwin.c:94-104 | Every line is marked from end to end. |
| Windows.Window.Wmove | Libcurses/move.c:65-82 | The cursor moves and the run-off marks of both lines are dropped; out of range nothing changes. |
| Windows.Window.Wdeleteln | Libcurses/deleteln.c:67-101 | The line is removed, those below move up, the last is blank, and every change is marked. |
| Windows.DeletedLines | Libcurses/deleteln.c:76-98 | Rotating and marking the lines is deleting a line of the text. |
| Windows.Window.Winsertln | Libcurses/insertln.c:67-101 | A blank line is opened, those below move down, and every change is marked. |
| Windows.InsertedLines | Libcurses/insertln.c:77-98 | Rotating and marking the lines is inserting a line into the text. |
| Windows.Window.BlankFrom | Libcurses/clrtoeol.c:82-90 | Blanks the tail of a row and finds the first and last column that was not blank. |
| Windows.Window.Wclrtoeol | Libcurses/clrtoeol.c:65-98 | The row is blank from the cursor on, or the next row if the cursor ran off; every change is marked. |
| Windows.Window.Wclrtobot | Libcurses/clrtobot.c:65-94 | Everything from the cursor on is blank; every change is marked. |
| Windows.Window.Werase | Libcurses/erase.c:65-91 | Everything is blank; every change is marked. |
| Windows.Window.Wdelch | Libcurses/delch.c:67-82 | The row closes up over the cursor; every change is marked. |
| Windows.Window.Scroll | Libcurses/scroll.c:65-90 | With scrolling allowed the top line is removed, the others move up and the cursor stays where it was; otherwise nothing changes. Every change is marked. |
| Windows.Window.StoreChar | Libcurses/addbytes.c:111-150 | The character is stored with its attribute, the interval covers it if it changed, and the run-off mark is set in the last column. |
| Windows.Window.AddNewline | Libcurses/addbytes.c:159-165 | A newline clears to the end of the line and goes on to the next, scrolling at the bottom. |
| Windows.Window.Waddbytes | Libcurses/addbytes.c:68-176 | The text becomes what typing the bytes one after the other makes of it. When scrolling is refused it is what had been typed, with the cursor that was stored last on the way; every change is marked. |
| Refresh.Screen.constructor | Libcurses/initscr.c:94-105 | A fresh screen is soundly marked and about to be cleared. |
| Refresh.Screen.Domvcur | Libcurses/refresh.c:444-456 | Standout is left unless the terminal can move in it, and then exactly the motion is sent. The cursor arrives where it is sent and the terminal still shows curscr; sent below the screen from the last row, it leaves the terminal showing curscr moved up by a line. |
| Refresh.Screen.ScrolledAwayShows | Libcurses/refresh.c:248-252 | A terminal that shows curscr moved up by a line shows curscr if and only if curscr is blank. |
| Refresh.Screen.PaintCell | Libcurses/refresh.c:351-416 | One differing cell is written to the terminal and curscr with its attribute, except in the corner, with exactly the commands for its mode and, with UC, its underline. |
| Refresh.Screen.ClearRest | Libcurses/refresh.c:319-349 | Clearing to the end of the line blanks the same cells on the terminal and in curscr. |
| Refresh.Screen.PaintLine | Libcurses/refresh.c:285-437 | The marked interval of the line is painted: curscr then has the window's cells there, and elsewhere has what it had or what the window has. The output ends on this row exactly if some cell differed or the line was forced, in the column that `Refresh.EndFrom` says, and stays where it was otherwise. The terminal is not left in standout unless it can move in it. |
| Refresh.EndColumnMeans | Libcurses/refresh.c:313-426 | The output ends behind the last column that is painted, short of the margin; but if only blanks are left to show from some column to be painted on, and clearing them is worth it, it ends there. |
| Refresh.ClearingIsWorth | Libcurses/refresh.c:326-334 | Where the clear is considered, the comparison of a signed with an unsigned number does no harm: on other lines than the last it is taken exactly if it blanks, behind the new line's end, as many columns as CE is long, or more. |
| Refresh.Screen.StepDown | Libcurses/refresh.c:248-252 | Below a line that was run off, and only there, the output position goes down one row. If it was on the last row the terminal then shows curscr moved up by a line; else it stays in step. |
| Refresh.Screen.Makech | Libcurses/refresh.c:236-438 | Afterwards curscr equals the window in every cell of the line that was marked or equal before, the corner aside. The position the output ends in is given exactly: on this row, where the painting ends, if there was something to paint, else where the step down took it. The terminal stays in step if and only if that step did not leave the last row. |
| Refresh.Screen.TrimTop | Libcurses/refresh.c:477-485 | Marks clean exactly the lines above the first that curscr does not show. |
| Refresh.Screen.TrimBottom | Libcurses/refresh.c:489-497 | Marks clean exactly the lines below the last that curscr does not show. |
| Refresh.Screen.AlignBlock | Libcurses/refresh.c:558-680 | The rotation keeps the marking sound, rotates exactly the region, and makes of all lines what the function `Quickch.Aligned` says. |
| Refresh.BlockAligned | Libcurses/refresh.c:626-680 | After the rotation curscr shows the unchanged block where the window has it. |
| Refresh.AlignedSound | Libcurses/refresh.c:640-668 | Marking outside the block and cleaning inside it keeps the marking sound. |
| Refresh.RotationRows | Libcurses/refresh.c:626-668 | The rotation with its blanking is, row by row, a scroll of the region. |
| Refresh.Screen.ScrollScreen | Libcurses/refresh.c:695-697 | On every terminal without NC whose region is the whole screen, the scroll commands bring the terminal to exactly what curscr was rotated to if and only if the scroll works (`Scroll.ScrollWorks`), which a downward scroll always does; otherwise something goes astray. There must be ND, or no standout in the cursor's row of the result (`Retraces`). |
| Refresh.Screen.Quickch | Libcurses/refresh.c:463-705 | A quick change keeps the marking sound and the text untouched, and makes of the lines exactly what the function `Quickch.Quick` does. On every terminal without NC whose region is the whole screen, with ND or without standout in the cursor's row of the result, the terminal stays equal to curscr if and only if the scroll that goes with the move works (`Scroll.ScrollWorks`). |
| Refresh.QuickRows | Libcurses/refresh.c:463-705 | The rows curscr shows after a quick change are rows it showed before, or blank. |
| Refresh.QuickFindsBlock | Libcurses/refresh.c:521-668 | If a quarter of the window's lines or more only moved, between the first and the last line that changed, a quick change leaves at least as many clean and shown as the window has them. |
| Refresh.Screen.HurryFindsBlock | Libcurses/refresh.c:124-136 | So does a refresh with more than a quarter of the lines dirty, on every terminal that can scroll. |
| Quickch.QuickLooksAtShown | Libcurses/refresh.c:463-705 | Of curscr's lines a quick change depends on the cells and hashes only. |
| Refresh.Screen.ClearAll | Libcurses/refresh.c:98-112 | A clear blanks the terminal and curscr and marks the whole window. |
| Refresh.Screen.RefreshLine | Libcurses/refresh.c:172-193 | A dirty line is painted and cleaned, lines already in agreement stay so. The terminal stays in step if and only if the line is clean, or the step down before it did not leave the last row. |
| Refresh.Screen.RefreshLines | Libcurses/refresh.c:167-198 | After the loop no line is dirty and curscr equals the window everywhere except possibly in the corner. The output ends in the position that its trajectory over the dirty lines leads to (`Refresh.OutRow`, `Refresh.OutCol`), and the terminal is in step if and only if that never steps below the last row. |
| Refresh.LandsOnLast | Libcurses/refresh.c:167-198 | If a line is the last to be painted, and no step down comes after it, the output ends where the painting of that line does. |
| Refresh.Screen.Finish | Libcurses/refresh.c:204-224 | The cursor ends where the window wants it. Under LEAVEOK curscr's cursor is where the output ended, and the window's is the same position if that is on the screen and the upper left corner if not. |
| Refresh.Screen.Prepare | Libcurses/refresh.c:82-112 | Hashes and clears leave the lines as the condition on the coming refresh foresees them; a requested clear brings the terminal in step. |
| Refresh.Screen.PrepareLines | Libcurses/refresh.c:82-137 | So does the quick change, if more than a quarter of the lines are dirty; the terminal is then in step if and only if its scroll works. |
| Refresh.Screen.Wrefresh | Libcurses/refresh.c:76-229 | A refresh changes no text, leaves no line dirty and curscr equal to the window except possibly in the corner. For every terminal with AM and without NC, and every state in which the terminal shows curscr and either there are ND, SO and SE without UC or nothing is in standout, the terminal is in step afterwards if `RefreshStays` held before (the scroll of the quick change works and the output never steps below the last row), and something has gone astray if not. Under LEAVEOK the cursors end where the course of the output over the lines ends, row and column (`Refresh.Screen.Landing`). A terminal that is not in standout, or can move in it, is not left in it otherwise. |
| Refresh.Screen.EditKeepsSound | Libcurses/touchwin.c:109-138 | An edit that marks what it changes keeps the marking sound, whatever curscr holds. |
| Refresh.Screen.Apply | Libcurses/refresh.c:76-229 | Any call of the library makes of the text and the modes what the text function of the call does, keeps the marking sound, and keeps the terminal in step, except after exactly those refreshes for which `RefreshStays` did not hold; after the others the terminal shows the window. |
| Refresh.Screen.Drive | Libcurses/refresh.c:76-229 | Over every sequence of calls the window goes through the states the calls make one after the other, which without LEAVEOK are the fold of the text functions over the calls; the marking stays sound; when the last call is a refresh, curscr equals the window except possibly in the corner. Something goes astray in the run if and only if the snapshot before one of its refreshes does not stay on the screen; if not, the terminal is in step at the end, and shows the window if the last call is a refresh. After every refresh under LEAVEOK the cursors are where the snapshot before it says that its output ends. |
| Refresh.Screen.Turn | Libcurses/refresh.c:76-229 | One call more keeps a run on that course. |
| Refresh.TraceIsFold | Libcurses/refresh.c:204-224 | Without LEAVEOK there is only one sequence of states, the fold. |
| Refresh.AboutToScroll | Libcurses/refresh.c:248-252 | Three calls on a screen of two lines of five columns lead to a state in step whose next refresh does not stay on the screen. |
| Refresh.ScrollsAway | Libcurses/refresh.c:248-252 | At its step below the line that was run off, that refresh leaves the terminal with another first row than curscr's. |
| Refresh.EndsAstray | Libcurses/refresh.c:76-229 | It ends with curscr equal to the window, the line that was scrolled off included. |
| AtRwLockCode.AtRwLock.constructor | LibcAT/at_rwlock.c:69-79 | A new lock is free. |
| AtRwLockCode.AtRwLock.ReadLock | LibcAT/at_rwlock.c:124-136 | The section up to the lock or to the wait does what the step function says. |
| AtRwLockCode.AtRwLock.ReadRecheck | LibcAT/at_rwlock.c:130-136 | The section from a wakeup to the lock or to the next wait. |
| AtRwLockCode.AtRwLock.ReadTryLock | LibcAT/at_rwlock.c:149-160 | The section of a try: the lock, or busy while a writer is active. |
| AtRwLockCode.AtRwLock.ReadUnlock | LibcAT/at_rwlock.c:169-177 | Gives a read lock back and signals a writer when it was the last. |
| AtRwLockCode.AtRwLock.WriteLock | LibcAT/at_rwlock.c:186-198 | The section up to the lock or to the wait. |
| AtRwLockCode.AtRwLock.WriteRecheck | LibcAT/at_rwlock.c:192-198 | The section from a wakeup to the lock or to the next wait. |
| AtRwLockCode.AtRwLock.WriteTryLock | LibcAT/at_rwlock.c:211-221 | The section of a try: the lock, or busy while anybody owns it. |
| AtRwLockCode.AtRwLock.WriteUnlock | LibcAT/at_rwlock.c:230-241 | Gives the write lock back and wakes all readers, or else a writer. |
| AtRwLockCode.AtRwLock.Destroy | LibcAT/at_rwlock.c:87-115 | Invalidates the lock, or reports busy when it is owned or waited for. |
| RwLock.StepKeepsCounts | LibcAT/at_rwlock.c:85-242 | Every step keeps the four counters equal to the real numbers of readers, writers and waiters, and a writer alone. |
| RwLock.ReadersNotLost | LibcAT/at_rwlock.c:128-134 | After every step a reader is asleep only while a writer is active. |
| RwLock.UnlockWakesSomebody | LibcAT/at_rwlock.c:172-176 | An unlock that frees a lock with sleeping writers leaves somebody awake to take it. |
| RwLock.OtherStepsLoseNoWriter | LibcAT/at_rwlock.c:190-196 | No other step lets a free lock with sleeping writers lose its awake waiter. |
| RwLock.StepKeepsInv | LibcAT/at_rwlock.c:85-242 | Every step of every thread keeps all invariants, spurious wakeups included. |
| RwLock.RunsKeepInv | LibcAT/at_rwlock.c:85-242 | The invariants hold in every state of every run of any number of threads. |
| RwLock.CountersTell | LibcAT/at_rwlock.c:122-242 | The counters that the code tests are positive exactly if some thread holds the lock that way. |
| RwLock.ReadGranted | LibcAT/at_rwlock.c:122-160 | A call, a try or a re-check for the read lock takes it, one more for that thread and nothing for any other, if and only if no thread holds the write lock; else a try changes nothing and returns busy, and the others sleep. |
| RwLock.WriteGranted | LibcAT/at_rwlock.c:186-221 | The same for the write lock, if and only if no thread holds the lock at all. |
| RwLock.UnlockGivesBack | LibcAT/at_rwlock.c:169-241 | An unlock gives back exactly one lock, changes other threads only by waking them, and leaves no reader asleep if it was a writer's. |
| RwLock.DeadLockRefuses | LibcAT/at_rwlock.c:122-242 | On a destroyed lock no call changes anything. |
| RwLock.WriterIsAlone | LibcAT/at_rwlock.c:128-136 | While a thread holds the lock for writing it holds it once and nobody else holds it at all. |
| RwLock.ReaderNeverBlocks | LibcAT/at_rwlock.c:122-138 | A thread that holds a read lock is granted another at once. |
| RwLock.DestroyNeedsIdle | LibcAT/at_rwlock.c:85-116 | Destroying a valid lock succeeds, and returns success, if and only if no thread holds it or is inside a lock call; else it returns busy. Nothing but the valid flag changes. |
| RwLock.FreeLockIsTaken | LibcAT/at_rwlock.c:233-239 | A free lock with waiters has an awake one, and whichever awake waiter re-checks gets the lock. |
| RwLock.NoDeadlock | LibcAT/at_rwlock.c:122-242 | As long as holders do not wait themselves, some waiter can take the lock or some holder can give it back. |
| KeyTree.TryWf | Libedit/key.c:347-404 | Adding keeps siblings distinct and every childless node bound. |
| KeyTree.TryLookup | Libedit/key.c:347-404 | After adding, the key has its binding, every other key that is a prefix or an extension of it has none, and all others keep theirs, stale values on inner nodes notwithstanding. |
| KeyTree.DeleteWf | Libedit/key.c:411-456 | Deleting keeps the tree well formed. |
| KeyTree.DeleteLookup | Libedit/key.c:411-456 | After deleting, exactly the keys that start with the given one are gone. |
| KeyTree.PrefixFree | Libedit/key.c:347-404 | No bound key is a prefix of another. |
| KeyTree.TravReads | Libedit/key.c:305-340 | Reading consumes exactly a bound key, or stops at the first character that leaves the tree, or runs out of input inside it. |
| KeyTree.HitsBoundPrefix | Libedit/key.c:305-340 | When the input starts with a bound key, reading reports its binding having read that key and nothing more. |
| KeyTree.LeavesLastRead | Libedit/key.c:305-340 | Short of the end of the input *ch is left with the last character read, except after a hit on a binding that is not a command, which leaves zero. |
| KeyTree.KeyGet | Libedit/key.c:193-199 | A binding is reported if and only if the input starts with a bound key, which is then unique; a mismatch only when no bound key continues what was read, though one continued all but its last character. |
| KeyMap.NodeTry | Libedit/key.c:347-404 | The linked nodes change as the tree operation says, and stay a tree. |
| KeyMap.NodeDelete | Libedit/key.c:411-456 | The same for deletion. |
| KeyMap.ExtendedKeys.KeyAdd | Libedit/key.c:210-235 | The map becomes the old one without the prefixes and extensions of the key, plus the key; an empty key or a lead-in binding changes nothing. |
| KeyMap.ExtendedKeys.KeyDelete | Libedit/key.c:261-276 | The map loses exactly the keys that start with the given one; an empty key is refused. |
| KeyMap.ExtendedKeys.KeyReset | Libedit/key.c:175-181 | The map becomes empty. |
| KeyMap.ExtendedKeys.NodeTrav | Libedit/key.c:305-340 | Reads from the input exactly what the traversal of the tree says. |
| KeyText.OctalParses | Libedit/parse.c:184-207 | Three octal digits parse to their value, or are refused when it exceeds a byte. |
| KeyText.CharFormParses | Libedit/parse.c:146-221 | The printed form of a byte that is no control character parses back to it, whatever follows. |
| KeyText.ControlNeverParses | Libedit/parse.c:213-216 | The printed form of a control character never does. |
| KeyText.KeyRoundTrip | Libedit/key.c:658-693 | Parsing the printed form of a key gives the key back if and only if no byte of it is a control character. |
| KeyText.StringRoundTrip | Libedit/key.c:699-745 | Parsing the printed form of a string gives it back if and only if it is not empty and all of it is printable; with unsigned characters bytes from 0200 on survive too. |
| KeyText.DecodeChar | Libedit/key.c:658-693 | Writes exactly the printed form of one byte and returns the index of its last byte. |
| KeyText.DecodeStr | Libedit/key.c:699-745 | Writes the printed form of a string between its separators. |
| KeyText.ParseEscape | Libedit/parse.c:146-221 | Parses one escape and advances past it, or returns -1, for either signedness of char. |
| KeyText.EscapedByteParses | Libedit/parse.c:208-210 | Behind a backslash every byte without a meaning of its own stands for itself, except 0377 where char is signed. |
| KeyText.LetterParses | Libedit/parse.c:160-183 | The eight letters stand for bell, backspace, tab, newline, vertical tab, form feed, return and escape, whatever follows. |
| KeyText.OneDigitParses | Libedit/parse.c:184-207 | One octal digit before something else is its value. |
| KeyText.TwoDigitsParse | Libedit/parse.c:184-207 | So are two. |
| KeyText.ControlExample | Libedit/parse.c:213-216 | The printed form of the byte 1 parses to a caret and an A. |
| KeyText.SignedExample | Libedit/key.c:736-736 | Where char is signed, the printed form of the byte 0200 does not parse. |
| KeyText.ParseString | Libedit/parse.c:227-250 | Parses a whole string, or reports an invalid escape. |
| NbpCodec.TupleLayout | LibcAT/nbp_send.c:574-620 | Where the address, the enumerator and the three names of a packed tuple are. |
| NbpCodec.NbpLen | LibcAT/nbp_send.c:574-587 | The length computed from the three length bytes is the length of the packed tuple. |
| NbpCodec.PackInto | LibcAT/nbp_send.c:590-603 | The names are written behind the address and the enumerator, and nothing else changes. |
| NbpCodec.UnpackEntity | LibcAT/nbp_send.c:606-620 | Unpacking a packed tuple gives its three names. |
| NbpCodec.PackUnpack | LibcAT/nbp_send.c:590-620 | Packing an entity and unpacking it gives the same object, type and zone. |
| NbpCodec.StepToNext | LibcAT/nbp_send.c:566-566 | Stepping by the computed length goes from one tuple of a packet to exactly the next. |
| NbpCodec.UnpackAll | LibcAT/nbp_send.c:551-567 | Walking a packet recovers every tuple that was packed into it. |
| NbpReplies.DistinctMeans | LibcAT/nbp_send.c:552-560 | The filtered list has no two entries alike, misses no kind, and each entry is the first of its kind to arrive. |
| NbpReplies.DuplicatesAgree | LibcAT/nbp_send.c:552-560 | Two replies are alike if and only if enumerator, network, node and socket agree; names play no part. |
| NbpReplies.ArrivalsJoin | LibcAT/nbp_send.c:241-317 | What arrives in a sequence of datagrams and timeouts is what arrives in its parts, in order. |
| NbpReplies.OneArrives | LibcAT/nbp_send.c:262-267 | Of a datagram all tuples arrive if it carries the request's identifier and the expected control value, else none. |
| NbpReplies.FilterOne | LibcAT/nbp_send.c:551-564 | Filtering one reply takes the right prefix of the filtered arrivals to the next. |
| NbpReplies.IsDuplicate | LibcAT/nbp_send.c:552-560 | Finds an entry with the same enumerator, network, node and socket if and only if there is one. |
| NbpReplies.FilterTuple | LibcAT/nbp_send.c:551-565 | A new tuple is stored behind the others unless the buffer is full. |
| NbpReplies.DoNbpReply | LibcAT/nbp_send.c:537-570 | One packet takes the first max distinct arrivals to the same of the longer list; the count returned is the number stored. |
| NbpReplies.Receive | LibcAT/nbp_send.c:241-317 | Over any sequence of datagrams and timeouts the buffer holds exactly the first max elements of the matching arrivals without duplicates, and got is their number; it stops when full or when the retries are used up. |
| AspPackets.HeaderRoundTrip | LibcAT/asp_if.c:146-153 | A header decodes from its sixteen bytes. |
| AspPackets.HeaderBytesRoundTrip | LibcAT/asp_if.c:146-153 | Sixteen bytes are the encoding of the header they decode to. |
| AspPackets.HeaderLayout | LibcAT/asp_if.c:146-153 | Where each field of the header stands, most significant byte first. |
| AspPackets.WireLayout | LibcAT/asp_if.c:1455-1464 | A message starts with its kind, number, error code and length, then its block and data; a write has the length of its block for an error code. |
| AspPackets.MessageAt | LibcAT/asp_if.c:2594-2619 | In any concatenation of messages each stands at its offset, header first, and the next follows. |
| AspPackets.WriteArrivesAsSent | LibcAT/asp_if.c:713-717 | A write reaches the server as its command block followed by its data if and only if the block is not empty or there is no data. |
| AspClient.Client.SendCommand | LibcAT/asp_if.c:2586-2619 | A command puts exactly its message on the connection and takes the next identifier; a block that is too long sends nothing. |
| AspClient.Client.Write | LibcAT/asp_if.c:1443-1471 | The same for a write and its data. |
| AspClient.Client.SendAll | LibcAT/asp_if.c:2586-2619 | Any run of calls puts exactly the concatenation of its messages on the connection. |
| AspServer.Session.RecvAll | LibcAT/asp_if.c:729-739 | The loop receives exactly n bytes under any fragmentation, or reports the end of the stream. |
| AspServer.Session.RecvHeader | LibcAT/asp_if.c:699-711 | Tickles are sent back and skipped; the next other header is kept. |
| AspServer.Session.GetRequest | LibcAT/asp_if.c:696-750 | The next request is delivered with its identifier, kind and body if and only if it fits; otherwise it stays parked, and the next call starts from it. The stream is then at the next header, or at the data of a write. |
| AspServer.Session.WrtContinue | LibcAT/asp_if.c:1557-1588 | Delivers the first bytes of the data that fit, drops the rest, and leaves the stream at the next header. |
| AspServer.Session.ServeOne | LibcAT/asp_if.c:696-750 | One request, and the data of a write, under any fragmentation. |
| AspServer.Session.Serve | LibcAT/asp_if.c:696-750 | Over any list of messages, any fragmentation of bodies and any buffer sizes, the server logs exactly the expected deliveries and ends on a header or behind a parked one. |
| AspServer.ExpectIsInOrder | LibcAT/asp_if.c:696-750 | The deliveries are the requests in order, none twice and none left out, each with a prefix of its data, whatever the retries. |
| AspServer.EverythingArrives | LibcAT/asp_if.c:720-733 | With buffers that are large enough nothing is retried, and with enough calls every request arrives. |
| AspExchange.SentInOrder | LibcAT/asp_if.c:2586-2619 | The calls that are not refused for their length are sent in order, numbered modulo 2^16. |
| AspExchange.MistakenExample | LibcAT/asp_if.c:713-717 | A write of one byte without a command block is logged as a request without data. |
| AspExchange.Exchange | LibcAT/asp_if.c:696-750 | Serving the stream that a client produced from a run of calls, under any fragmentation of the bodies and any buffer sizes, logs the accepted calls in order, none twice and none left out, each with its number, primitive, block and a prefix of its data; with enough large buffers, all of them. A write without a command block is told as its data. |
| AspStatus.GrownLength | LibcAT/asp_if.c:1267-1268 | The reported length is the old one plus exactly what was inserted. |
| AspStatus.OldBytesMove | LibcAT/asp_if.c:1239-1266 | Every old byte behind the header is at its relocated offset. |
| AspStatus.NewPartsAreThere | LibcAT/asp_if.c:1242-1250 | The two new offset fields lead to the signature, and to the count followed by the addresses. |
| AspStatus.GrownHeader | LibcAT/asp_if.c:1251-1264 | The header reads as the old one with its offsets adjusted and two flags set (where the offsets lead is `AspStatus.FieldsLead`). |
| AspStatus.FieldsLead | LibcAT/asp_if.c:1251-1263 | In the announced block each of the fields for the machine type, the versions and the UAMs leads to the byte it led to before if that lies between the name and the icon, and to where that byte has moved only then; the icon's leads to the icon; zero stays zero. |
| AspStatus.FlagsAnnounced | LibcAT/asp_if.c:1264-1264 | In the announced block the two flags are set and every other flag is as it was. |
| AspStatus.OffsetsFollow | LibcAT/asp_if.c:1252-1257 | An adjusted offset leads to where its target has moved if and only if the target lies between the name and the icon; an unused one stays zero. |
| AspStatus.OffsetsExample | LibcAT/asp_if.c:1252-1257 | A block whose versions lie behind the icon gets an offset of 18 for a target at 35. |
| AspStatus.IconFollows | LibcAT/asp_if.c:1258-1263 | The icon's offset always does, or stays zero. |
| AspStatus.FlagsKept | LibcAT/asp_if.c:1264-1264 | The two flags are set and no other changes. |
| AspStatus.GetTcpInfo | LibcAT/asp_if.c:1247-1248 | The addresses are stored one behind the other and counted. |
| AspStatus.AdjustOffsets | LibcAT/asp_if.c:1251-1259 | Each of the four offset fields is adjusted unless it is zero, to what `AspStatus.FieldsLead` then finds there. |
| AspStatus.InsertTcp | LibcAT/asp_if.c:1237-1248 | The name, the offset pair, the signature, the count and the addresses stand in their places. |
| AspStatus.MoveRest | LibcAT/asp_if.c:1251-1266 | The icon and the middle are copied to their new places, and nothing written before is lost. |
| AspStatus.Assembled | LibcAT/asp_if.c:1237-1266 | The parts lie side by side without gap or overlap and together are the grown block. |
| AspStatus.NewStatus | LibcAT/asp_if.c:1197-1284 | What goes to the device is the given block, or the grown one when there is a TCP listener; the kept copy and its length agree with it; all errors. |
| Histories.StepKeepsSane | Libedit/history.c:153-321 | Every operation keeps the cursor in the list and the event numbers running down from the last one given. |
| Histories.RunKeepsSane | Libedit/history.c:153-321 | So does every run. |
| Histories.EnterLength | Libedit/history.c:299-321 | Entering leaves min(old + 1, max + 1) events, the new one first and the others in order. |
| Histories.NeverEmptyAgain | Libedit/history.c:314-319 | Once there is an event, every run leaves one. |
| Histories.FirstThenNexts | Libedit/history.c:153-197 | FIRST and then k times NEXT give the k-th older event, or none. |
| Histories.LastThenPrevs | Libedit/history.c:164-218 | LAST and then k times PREV count from the oldest. |
| Histories.PrevUndoesNext | Libedit/history.c:179-218 | A step back undoes a step, and the other way round, exactly when the list's end was not passed. |
| Histories.RemembersLatest | Libedit/history.c:299-321 | After any list of entries the history holds the latest ones, one more than its limit, in reverse order and numbered consecutively. |
| Histories.NumberTellsPlace | Libedit/history.c:455-481 | An event number determines the place of the event. |
| HistoryRing.SkippedIsRing | Libedit/history.c:271-272 | Unlinking an entry from a well-formed ring leaves a well-formed ring of the others. |
| HistoryRing.InsertedIsRing | Libedit/history.c:289-292 | Linking an entry behind the header leaves a well-formed ring with it in front. |
| HistoryRing.History.constructor | Libedit/history.c:324-343 | An empty history is a ring of the header alone; a limit below zero counts as zero. |
| HistoryRing.History.DefFirst | Libedit/history.c:149-162 | The cursor goes to the newest event. |
| HistoryRing.History.DefLast | Libedit/history.c:164-177 | The cursor goes to the oldest event. |
| HistoryRing.History.DefNext | Libedit/history.c:179-197 | The cursor goes to the next older event, from the oldest to the header, where it stays. |
| HistoryRing.History.DefPrev | Libedit/history.c:200-218 | The cursor goes to the next newer event, from the newest to the header. |
| HistoryRing.History.DefCurr | Libedit/history.c:221-234 | The event under the cursor, or none at the header. |
| HistoryRing.History.DefInsert | Libedit/history.c:279-296 | A new entry stands in front under the cursor. |
| HistoryRing.History.DefDelete | Libedit/history.c:261-276 | The entry is gone from the ring, all others are as before, and cur is their number. |
| HistoryRing.History.Trim | Libedit/history.c:314-319 | The oldest entries are deleted down to one more than the limit. |
| HistoryRing.History.DefEnter | Libedit/history.c:299-321 | Entering does to the ring what it does to the list of events. |
| HistoryRing.History.DefAdd | Libedit/history.c:237-258 | Appends to the event under the cursor, or enters a new one at the header. |
| Histories.AddAppends | Libedit/history.c:237-258 | The text under the cursor comes first and the added text behind it; number, cursor and other events stay. At the header a new event is entered. |
| HistoryRing.History.SetMax | Libedit/history.c:400-408 | The limit changes; a negative one is refused. |
| Histories.LimitWaits | Libedit/history.c:400-408 | A new limit takes effect at the next entry only, which keeps as many old events as it says, and the new one; a negative one changes nothing. |
| HistoryRing.History.NextEvent | Libedit/history.c:470-481 | Finds the event with the number among the older ones if and only if it is there, at the place the number gives. |
| HistoryRing.History.PrevEvent | Libedit/history.c:455-467 | The same among the newer ones. |
| HistoryRing.History.RunAll | Libedit/history.c:153-321 | Over every run of operations the ring stays a well-formed circular doubly linked list of exactly the events the run leaves. |
| HistoryWalk.BackShows | Libedit/common.c:714-743 | Going back stops at the oldest event, shows the trimmed event of its place even then, reports an error exactly when it was too far, and keeps the unfinished line. |
| HistoryWalk.BackStaysInRange | Libedit/common.c:729-735 | The place stays within the history if and only if there is one or the step was small enough; without one the line stays. |
| HistoryWalk.ForthShows | Libedit/common.c:751-766 | Going forth shows the line of the place, the unfinished one at the start. |
| HistoryWalk.ForthKeepsDraft | Libedit/common.c:758-765 | The unfinished line is kept exactly when the step was not too far (or was one past the start), or the two lines are the same. |
| HistoryWalk.ForthTooFar | Libedit/common.c:760-763 | A step that loses the unfinished line. |
| HistoryWalk.WalkShows | Libedit/common.c:714-766 | Over every run of both keys the place stays in the history, the line shown belongs to it, and at the start it is the unfinished line again. |
| HistoryWalk.Ups | Libedit/common.c:729-735 | Pressing the previous-line key k times goes back k events or to the oldest. |
| HistoryKeys.EditLine.ShowEvent | Libedit/hist.c:150-162 | The line becomes the event without a newline and a blank before it at its end. |
| HistoryKeys.EditLine.HistGet | Libedit/hist.c:114-170 | Shows the line of the place; past the oldest event it corrects the place, reports an error and leaves the line. |
| HistoryKeys.EditLine.PrevHistory | Libedit/common.c:714-743 | Does what going back says, saving the unfinished line when it leaves it. |
| HistoryKeys.EditLine.NextHistory | Libedit/common.c:751-766 | Does what going forth says. |
| HistoryKeys.EditLine.Walk | Libedit/common.c:714-766 | Over every run of both keys the place is the clamped count of the keys and the line is the one that belongs to it. |

## Left out

Libcurses:

- Refresh.Screen.Wrefresh: that the terminal shows curscr is claimed for terminals with CA and AM and without NC, and where something is in standout also with ND, SO and SE and without UC; other terminals get the claim about curscr only, and without CA not that either, because refresh.c:113-118 then erases curscr.
- Refresh.Screen.Quickch: its claim about the terminal excludes NC, like that of every motion.
- Refresh.Screen.Drive: what is on the terminal after something went astray is said for the step down itself (`ScrolledAway`) and not for what is sent after it.
- CursorMotion.Mover.Mvcur: terminals with NC are modelled, but that the motion arrives is claimed without NC only.
- Line pointers are modelled as an array of line records, so that aliasing of a line by two windows is not captured; subwindows, mvwin, overlay, overwrite and touchoverlap are left out with it.
- wrefresh(curscr), windows smaller than the screen, insch, wgetch, and the padding that tputs adds.
- refresh.c:316 compares one cell past the end of the line before it looks at the column; the model looks at the column first. The blank line of quickch (refresh.c:471) has room for 1024 columns; the model has no such limit.
- Hash values are any function of the cells; lines are compared by hash and cells as the code does, so nothing depends on the function.

LibcAT:

- Locks: the valid flag is read inside the atomic step, not before the mutex is taken; condition_signal wakes at least one waiter; no fairness is claimed, because the lock has none.
- Names longer than 32 bytes, which the protocol forbids; sockets, select and the clock of the NBP lookup, which are a list of datagrams and timeouts; requests of the other kinds.
- AspServer.Session.GetRequest: without the saved request of an attention (asp_if.c:678-694); a header that does not arrive in one piece counts as a closed session, as in the code, and nothing is said about calls after that.
- The byte order of headers is big-endian; the code sends them in the order of the machine.
- Errors of send; the AppleTalk branches of every ASP call; SPGetReply and SPAttention.
- AspStatus.NewStatus: the contents of the signature and of the addresses are parameters, and the block is required to hold its name and icon and to fit when it has grown, which the code does not check.

Libedit:

- KeyMap.NodeTry: the loops along the siblings in node__try and node__delete are recursive calls.
- KeyMap.ExtendedKeys.NodeTrav: what *ch holds at the end of the input, where el_getc has the last word.
- Allocation and release of nodes and strings; printing and looking up the map (key.c:284-299 and 517-650); character input other than its sequence and end.
- KeyText.DecodeStr: its output is a sequence; the code does not know the size of the buffer either.
- Searching the history by string, user-supplied history functions, and releasing it.
- HistoryKeys.EditLine.HistGet: lines and events are required to fit the buffer of 1024 characters and to hold no zero byte; for an event that is a bare newline the code reads one byte before the buffer, without effect on the line.
- Wrap-around of event numbers and of the lock's counters, which are C ints.
