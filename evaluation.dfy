/**
 * The per-letter scoring of the game board: `obtenerEstadoLetra` and the
 * fixed 5x5 grid of verdicts that the board component builds around it.
 * Scoring is position-then-membership, with no correction for repeated
 * letters.
 */
module Evaluation {

  datatype Option<+T> = None | Some(value: T)

  /** The four cell states of the board (`correcto`, `posicionIncorrecta`,
      `incorrecto`, `vacio`). */
  datatype Verdict = Correct | WrongPosition | Absent | Empty

  /** Number of rows and of columns the board draws. */
  const BoardSize: nat := 5

  /** `text.includes(pattern)` on strings: `pattern` occurs as a contiguous
      substring of `text` (the empty pattern occurs everywhere). */
  function Includes(text: string, pattern: string): (b: bool)
    ensures b ==> |pattern| <= |text|
    decreases |text|
  {
    (|pattern| <= |text| && text[..|pattern|] == pattern)
    || (|text| > 0 && Includes(text[1..], pattern))
  }

  /** Reference definition of substring occurrence, by a starting index. */
  ghost predicate OccursAt(text: string, pattern: string, i: int)
  {
    0 <= i && i + |pattern| <= |text| && text[i..i + |pattern|] == pattern
  }

  lemma {:induction false} IncludesIsOccurrence(text: string, pattern: string)
    ensures Includes(text, pattern) <==> exists i :: OccursAt(text, pattern, i)
    decreases |text|
  {
    if |pattern| <= |text| && text[..|pattern|] == pattern {
      assert OccursAt(text, pattern, 0);
    } else if |text| > 0 {
      IncludesIsOccurrence(text[1..], pattern);
      if exists i :: OccursAt(text[1..], pattern, i) {
        var i :| OccursAt(text[1..], pattern, i);
        assert text[i + 1..i + 1 + |pattern|] == text[1..][i..i + |pattern|];
        assert OccursAt(text, pattern, i + 1);
      }
      if exists i :: OccursAt(text, pattern, i) {
        var i :| OccursAt(text, pattern, i);
        assert i > 0;
        assert text[1..][i - 1..i - 1 + |pattern|] == text[i..i + |pattern|];
        assert OccursAt(text[1..], pattern, i - 1);
      }
    }
  }

  /** For a one-character pattern, substring search is plain membership. */
  lemma IncludesChar(text: string, c: char)
    ensures Includes(text, [c]) <==> c in text
  {
    IncludesIsOccurrence(text, [c]);
    if c in text {
      var i :| 0 <= i < |text| && text[i] == c;
      assert text[i..i + 1] == [c];
      assert OccursAt(text, [c], i);
    }
    if exists i :: OccursAt(text, [c], i) {
      var i :| OccursAt(text, [c], i);
      assert text[i] == text[i..i + 1][0];
    }
  }

  /** `obtenerEstadoLetra(letra, posicion, fila, palabraCorrecta, intentoActual)`.
      `letter` is the cell's text ("" when the cell is blank), `guess` the
      whole row string (None when the row does not exist). `row` is taken,
      as in the component, and never used. An index past the end of the
      target reads as undefined and so never equals the letter. */
  function LetterVerdict(letter: string, position: nat, row: int, target: string, guess: Option<string>): (v: Verdict)
    ensures v == Empty <==> letter == "" || guess == None || guess == Some("")
    ensures v == Correct ==> position < |target| && letter == [target[position]]
    ensures v == Absent <==> v != Empty && !Includes(target, letter)
  {
    if letter == "" then Empty
    else if guess == None || guess == Some("") then Empty
    else if position < |target| && [target[position]] == letter then
      IncludesIsOccurrence(target, letter);
      assert OccursAt(target, letter, position);
      Correct
    else if Includes(target, letter) then WrongPosition
    else Absent
  }

  /** The text of cell (r, c): `intentos[r]?.[c] || ''`. */
  function CellLetter(rows: seq<string>, r: nat, c: nat): (letter: string)
    ensures |letter| <= 1
    ensures letter != "" <==> r < |rows| && c < |rows[r]|
    ensures letter != "" ==> letter[0] == rows[r][c]
  {
    if r < |rows| && c < |rows[r]| then [rows[r][c]] else ""
  }

  /** The row string handed to the classifier: `intentos[r]`. */
  function RowAt(rows: seq<string>, r: nat): (g: Option<string>)
    ensures g.Some? <==> r < |rows|
    ensures g.Some? ==> g.value == rows[r]
  {
    if r < |rows| then Some(rows[r]) else None
  }

  /** The verdict of cell (r, c); blank exactly outside the row strings. */
  function Cell(rows: seq<string>, target: string, r: nat, c: nat): (v: Verdict)
    ensures v == Empty <==> r >= |rows| || c >= |rows[r]|
  {
    LetterVerdict(CellLetter(rows, r, c), c, r, target, RowAt(rows, r))
  }

  /** The grid the board draws: always 5 rows of 5 cells, cell (r, c) scored
      from the c-th character of the r-th row string. */
  function Board(rows: seq<string>, target: string): (b: seq<seq<Verdict>>)
    ensures |b| == BoardSize
    ensures forall r :: 0 <= r < BoardSize ==> |b[r]| == BoardSize
    ensures forall r, c :: 0 <= r < BoardSize && 0 <= c < BoardSize ==> b[r][c] == Cell(rows, target, r, c)
  {
    seq(BoardSize, r requires 0 <= r => seq(BoardSize, c requires 0 <= c => Cell(rows, target, r, c)))
  }

  // ---------------------------------------------------------------------
  // Properties of the classifier

  /** A blank cell is always `vacio`. */
  lemma EmptyLetterIsEmpty(position: nat, row: int, target: string, guess: Option<string>)
    ensures LetterVerdict("", position, row, target, guess) == Empty
  {
  }

  /** A missing or empty row string makes every position `vacio`. */
  lemma EmptyRowIsEmpty(letter: string, position: nat, row: int, target: string)
    ensures LetterVerdict(letter, position, row, target, None) == Empty
    ensures LetterVerdict(letter, position, row, target, Some("")) == Empty
  {
  }

  /** The row index has no influence on the verdict. */
  lemma VerdictIgnoresRow(letter: string, position: nat, row1: int, row2: int, target: string, guess: Option<string>)
    ensures LetterVerdict(letter, position, row1, target, guess) == LetterVerdict(letter, position, row2, target, guess)
  {
  }

  /** The full classification of one character of a non-empty row:
      `correcto` exactly on a positional match, `posicionIncorrecta`
      exactly when the character occurs elsewhere in the target, and
      `incorrecto` exactly when it does not occur in the target at all. */
  lemma CharVerdict(c: char, position: nat, row: int, target: string, guess: string)
    requires guess != ""
    ensures LetterVerdict([c], position, row, target, Some(guess)) != Empty
    ensures LetterVerdict([c], position, row, target, Some(guess)) == Correct
            <==> position < |target| && target[position] == c
    ensures LetterVerdict([c], position, row, target, Some(guess)) == WrongPosition
            <==> !(position < |target| && target[position] == c) && c in target
    ensures LetterVerdict([c], position, row, target, Some(guess)) == Absent
            <==> c !in target
  {
    IncludesChar(target, c);
  }

  /** Membership alone decides between `incorrecto` and the other two:
      a letter scores `correcto` or `posicionIncorrecta` iff it occurs in
      the target, however many times it is repeated in the guess. */
  lemma NoDuplicateCorrection(rows: seq<string>, target: string, r: nat, i: nat, j: nat)
    requires r < |rows| && i < |rows[r]| && j < |rows[r]|
    requires rows[r][i] == rows[r][j]
    ensures (Cell(rows, target, r, i) in {Correct, WrongPosition}) <==> rows[r][i] in target
    ensures (Cell(rows, target, r, i) in {Correct, WrongPosition}) <==> (Cell(rows, target, r, j) in {Correct, WrongPosition})
  {
    CharVerdict(rows[r][i], i, r, target, rows[r]);
    CharVerdict(rows[r][j], j, r, target, rows[r]);
  }

  // ---------------------------------------------------------------------
  // Properties of the board

  /** Cell (r, c) of the board, described without the classifier: blank
      outside the row strings, otherwise scored by position and then by
      membership in the target. */
  lemma BoardCell(rows: seq<string>, target: string, r: nat, c: nat)
    requires r < BoardSize && c < BoardSize
    ensures var v := Board(rows, target)[r][c];
      && (v == Empty <==> r >= |rows| || c >= |rows[r]|)
      && (v == Correct <==> r < |rows| && c < |rows[r]| && c < |target| && target[c] == rows[r][c])
      && (v == WrongPosition <==> r < |rows| && c < |rows[r]| && !(c < |target| && target[c] == rows[r][c]) && rows[r][c] in target)
      && (v == Absent <==> r < |rows| && c < |rows[r]| && rows[r][c] !in target)
  {
    if r < |rows| && c < |rows[r]| {
      assert CellLetter(rows, r, c) == [rows[r][c]];
      CharVerdict(rows[r][c], c, r, target, rows[r]);
    }
  }

  /** Rows past the end of the list are drawn blank. */
  lemma BoardRowsBeyondListEmpty(rows: seq<string>, target: string, r: nat)
    requires |rows| <= r < BoardSize
    ensures forall c :: 0 <= c < BoardSize ==> Board(rows, target)[r][c] == Empty
  {
  }

  /** A row equal to the target is `correcto` in every drawn position it has. */
  lemma TargetRowAllCorrect(rows: seq<string>, target: string, r: nat)
    requires r < BoardSize && r < |rows| && rows[r] == target
    ensures forall c :: 0 <= c < BoardSize && c < |target| ==> Board(rows, target)[r][c] == Correct
  {
    forall c | 0 <= c < BoardSize && c < |target|
      ensures Board(rows, target)[r][c] == Correct
    {
      BoardCell(rows, target, r, c);
    }
  }
}
