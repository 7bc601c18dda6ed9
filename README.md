# TECDLE game core in Dafny

A model of the core of TECDLE, a Wordle-style game written as an Expo /
React Native screen. The player guesses a hidden word from a fixed list,
typing up to five rows; each row has a 30-second countdown that pushes the
row through as it stands when it runs out. Two parts are modelled:

- `Session` (`session.dfy`) — the game screen's five state variables
  (`palabraActual`, `intentos`, `intentoActual`, `tiempoRestante`,
  `filaActual`) as the fields of class `Session.Game`, with one method per
  transition: a new game (`iniciarNuevoJuego`), a key press
  (`manejarTecla`, which may call the submission `verificarIntento`) and one
  run of the one-second timer callback. Each method is proved to move the
  fields exactly as a function on a `State` value says (`NewGameState`,
  `KeyStep`, `SubmitStep`, `TickStep`), and the game's promises are lemmas
  about those functions: the invariant `Inv` (recorded rows equal the row
  index, at most five rows, typed row at most five letters of `[A-ZÑ]`,
  clock in 0..30 and reaching 0 only at row index 4 or later, the word
  from the list or empty before the first game) is
  kept by every transition and by every sequence of events (`Run`).
- `Evaluation` (`evaluation.dfy`) — the per-letter classifier
  `obtenerEstadoLetra` as `LetterVerdict`, and the 5x5 grid of verdicts the
  board component builds around it as `Board`.

The model follows the code, which differs in several places from a
conventional Wordle session:

- there is no won/lost status; the only freeze is the "five recorded rows"
  guard of the key handler;
- a row equal to the word changes no state (it only raises the win dialog),
  so the winning row is not recorded and input stays open;
- ENTER requires exactly five typed characters, and "CHAPA" is the only
  five-letter word of the list, so a win is possible only on "CHAPA"
  (`Session.WonOnlyForChapa`, `Session.NoWinUnlessChapa`);
- when the clock runs out on the last row (row index 4 or more) the clock
  stops at 0 and nothing is recorded; on earlier rows the typed row is
  recorded verbatim, even when short or empty;
- scoring does not correct for repeated letters: a letter scores
  `correcto` or `posicionIncorrecta` exactly when it occurs in the word.

Randomness is a parameter: `NewGame` takes the draw of `Math.random()` as a
real in [0, 1) and picks `floor(draw * 5)`. Dialogs are returned as a
`Signal` (`Won`, `GameOver(word)`, `TimeUp(word)`, or `Quiet`).

## Model

| member | source | states |
|---|---|---|
| `Session.Initial` | app/index.tsx:12-16 | the values before the first game: no rows, empty typed row, row 0, 30 seconds, and they satisfy the invariant |
| `Session.PickIndex` | app/index.tsx:19 | the index picked for a draw in [0, 1) is a valid index of the word list, and it is the whole part of `draw * length`: `i <= draw * length < i + 1` |
| `Session.NewGameState` | app/index.tsx:18-25 | a new game starts on a word of the list with no rows, an empty typed row, row 0 and 30 seconds, satisfying the invariant |
| `Session.DropLast` | app/index.tsx:51 | deleting from an empty row leaves it empty; otherwise the result followed by the removed last character is the old row |
| `Session.SubmitStep` | app/index.tsx:27-45 | a submission never changes the word; it raises the win signal exactly when the typed row equals the word, and then changes nothing; otherwise the gap between recorded rows and row index is kept |
| `Session.KeyStep` | app/index.tsx:47-59 | a key never changes the word and never raises "time is up"; the clock is either left alone or reset to 30; with five rows recorded the key has no effect |
| `Session.TickStep` | app/index.tsx:78-95 | a tick never changes the word and never raises the win or "Game Over" signals; it advances the row by at most one; "time is up" is raised exactly when the clock is left at 0 |
| `Session.Game.constructor` | app/index.tsx:12-16 | the fields start at the initial values and the invariant holds |
| `Session.Game.NewGame` | app/index.tsx:18-25 | the fields become the new-game state for the given draw; the invariant holds |
| `Session.Game.Submit` | app/index.tsx:27-45 | the fields and signal become those of `SubmitStep` on the old state; the invariant is kept |
| `Session.Game.HandleKey` | app/index.tsx:47-59 | the fields and signal become those of `KeyStep` on the old state; the invariant is kept |
| `Session.Game.Tick` | app/index.tsx:78-95 | the fields and signal become those of `TickStep` on the old state; the invariant is kept |
| `Session.Game.Display` | app/index.tsx:123-126 | the board is scored from the recorded rows followed by the typed row, against the word, and in a consistent game every row below the typed one is blank |
| `Session.BackspaceRemovesLast` | app/index.tsx:50-51 | either delete key removes exactly the last typed character (an empty row stays empty) and changes nothing else |
| `Session.LetterIsNoCommand` | app/index.tsx:50-56 | a single `[A-ZÑ]` letter is neither delete key nor ENTER, so the letter branch is the one taken |
| `Session.LetterAppends` | app/index.tsx:56-57 | a one-letter `[A-ZÑ]` token is appended while the typed row has fewer than five characters, otherwise nothing changes |
| `Session.OtherTokensIgnored` | app/index.tsx:50-58 | any token that is not a delete key, ENTER or a single `[A-ZÑ]` letter changes no field and raises nothing |
| `Session.ShortEnterIgnored` | app/index.tsx:52-55 | ENTER on a typed row whose length is not five changes no field |
| `Session.FullEnterSubmits` | app/index.tsx:52-54 | ENTER on a five-character row, with fewer than five rows recorded, is exactly a submission |
| `Session.FrozenAfterLastRow` | app/index.tsx:48 | once five rows are recorded every key leaves all state unchanged |
| `Session.KeyKeepsInv` | app/index.tsx:47-59 | every key press keeps the invariant, in particular the typed row never exceeds five letters |
| `Session.MatchingGuessKeepsState` | app/index.tsx:28-33 | submitting a row equal to the word changes no field and raises only the win signal |
| `Session.MismatchAdvances` | app/index.tsx:35-44 | any other row is appended verbatim, the typed row cleared, the row index advanced by one and the clock reset to 30; "Game Over" with the word is raised exactly when the pre-increment row was 4 or more; rows recorded still equal the row index |
| `Session.SubmitKeepsInv` | app/index.tsx:35-38 | a submission with fewer than five recorded rows keeps the invariant |
| `Session.OnlyChapaFits` | app/index.tsx:7 | a word of the list has five letters iff it is "CHAPA" |
| `Session.WonOnlyForChapa` | app/index.tsx:7-59 | a key press that raises the win signal happens only when the word and the typed row are "CHAPA", and it changes nothing |
| `Session.TickCases` | app/index.tsx:79-94 | a tick with more than one second left counts down by one; at one second or less before the last row it records the typed row verbatim, clears it, advances the row and resets to 30; otherwise it sets the clock to 0, records nothing and raises "time is up" with the word |
| `Session.TickKeepsInv` | app/index.tsx:78-95 | every tick keeps the invariant |
| `Session.TicksCountDown` | app/index.tsx:79-94 | fewer ticks than the seconds left only lower the clock by that many |
| `Session.RowTimesOut` | app/index.tsx:80-92 | after as many ticks as seconds left, a row before the last is recorded as typed and the next row starts with 30 seconds; on the last row the clock sits at 0 and no row is added |
| `Session.TicksSplit` | app/index.tsx:78-95 | running `j + k` ticks is running `j` ticks and then `k` more |
| `Session.ApplyKeepsInv` | app/index.tsx:18-95 | a single event of any kind (key, tick, new game) keeps the invariant |
| `Session.RunKeepsInv` | app/index.tsx:18-95 | every state reached by any sequence of key presses, ticks and new games from a consistent state is consistent: rows recorded equal the row index, which stays in 0..5, and the clock stays in 0..30 |
| `Session.NoWinUnlessChapa` | app/index.tsx:7-59 | with no new game in between, a session on a word other than "CHAPA" never raises the win signal |
| `Session.TypingAppends` | app/index.tsx:56-57 | typing letters into a row with room for them appends them in order, silently, and changes no other field |
| `Session.ChapaDraw` | app/index.tsx:19 | a draw in [0.6, 0.8) starts a game on "CHAPA" |
| `Session.ChapaScenario` | app/index.tsx:28-57 | on "CHAPA" with an empty row, C, H, A, P, A fill the row letter by letter and ENTER then raises the win signal without recording the row |
| `Session.ShortRowScenario` | app/index.tsx:35-57 | on "CHAPA" with "BUFF" typed, ENTER is ignored; after "E", ENTER records "BUFFE" as the first row, clears the typed row and resets the clock |
| `Session.FutureRowsBlank` | app/index.tsx:123-126 | in a consistent state the displayed board leaves every row below the typed one blank |
| `Evaluation.Includes` | components/GameBoard.tsx:25 | a pattern is only found in a text at least as long as the pattern |
| `Evaluation.LetterVerdict` | components/GameBoard.tsx:11-30 | the verdict is `vacio` exactly when the letter is blank or the row string is absent or empty; `correcto` only when the word has that letter at that position; `incorrecto` exactly when a non-blank verdict's letter is not contained in the word |
| `Evaluation.IncludesIsOccurrence` | components/GameBoard.tsx:25 | the string `includes` test holds iff the pattern occurs at some index of the word |
| `Evaluation.IncludesChar` | components/GameBoard.tsx:25 | for a one-character letter, `includes` is membership in the word |
| `Evaluation.CellLetter` | components/GameBoard.tsx:38 | a cell's text is at most one character, blank exactly outside the row string, else the row's character at that column |
| `Evaluation.RowAt` | components/GameBoard.tsx:44 | the row string is present exactly for rows of the list |
| `Evaluation.Cell` | components/GameBoard.tsx:38-44 | the verdict of cell (r, c) is `vacio` exactly when row r does not exist or is shorter than c + 1 |
| `Evaluation.Board` | components/GameBoard.tsx:35-45 | the grid is always 5 by 5 and cell (r, c) is the verdict of the c-th cell of row r |
| `Evaluation.EmptyLetterIsEmpty` | components/GameBoard.tsx:18 | a blank letter is `vacio` |
| `Evaluation.EmptyRowIsEmpty` | components/GameBoard.tsx:19 | an absent or empty row string makes every position `vacio` |
| `Evaluation.VerdictIgnoresRow` | components/GameBoard.tsx:11-17 | the verdict does not depend on the row index `fila` |
| `Evaluation.CharVerdict` | components/GameBoard.tsx:21-29 | for a character of a non-empty row: `correcto` iff the word has it at that position, `posicionIncorrecta` iff it does not but the word contains it, `incorrecto` iff the word does not contain it; never `vacio` |
| `Evaluation.NoDuplicateCorrection` | components/GameBoard.tsx:21-27 | a character scores `correcto` or `posicionIncorrecta` iff it occurs in the word, and two equal characters of a row agree on this however often they repeat |
| `Evaluation.BoardCell` | components/GameBoard.tsx:18-45 | each board cell is blank iff outside the row strings, otherwise scored by position and then by membership in the word, in all four directions |
| `Evaluation.BoardRowsBeyondListEmpty` | components/GameBoard.tsx:35-38 | board rows past the end of the row list are all `vacio` |
| `Evaluation.TargetRowAllCorrect` | components/GameBoard.tsx:21-23 | a row equal to the word is `correcto` at every drawn position within the word's length |

## Left out

- The React plumbing (`useState`, `useCallback`, effect dependency arrays): each handler is modelled as one atomic update of the five fields. The interval callback's stale closure over old `intentoActual` / `filaActual` values is not modelled.
- `setInterval` / `clearInterval` scheduling: a tick is an explicit method call. The restart of the interval whenever its dependencies change is not modelled, so ticks after "time is up" are simply further calls of `Tick`.
- `Alert.alert` dialogs and their "play again" callbacks: they become returned signals; a restart is a separate `NewGame` call.
- `Math.random`: the draw is a parameter in [0, 1).
- The mount effect that starts the first game: the constructor gives the `useState` values, and the client calls `NewGame`.
- The window `keydown` listener and its `toUpperCase`: the model takes already-normalised tokens.
- The on-screen keyboard layout, the navigation shell, styles and rendering, including the letter text shown in each board cell: only the verdict grid is modelled.
- JavaScript strings are UTF-16 code units; the model uses Unicode characters, which coincide for every token the game uses.
- Session.Game.Submit: requires fewer than five recorded rows, which its only caller, the key handler, has already checked.
