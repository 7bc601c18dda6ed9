/**
 * The game screen's session state machine: the hidden word, the submitted
 * rows, the row being typed, the per-row countdown and the row index, with
 * the three transitions that change them (a new game, a key press, which
 * may submit the row, and a one-second timer tick).
 *
 * The transitions are first written as functions on a `State` value
 * (`NewGameState`, `KeyStep`, `SubmitStep`, `TickStep`); the class `Game`
 * holds the five variables as fields and its methods are proved to move
 * them exactly as those functions say. What the game promises is proved
 * about the functions.
 */
module Session {
  import opened Evaluation

  /** `PALABRAS`: the fixed word list. Only "CHAPA" has five letters. */
  const Words: seq<string> := ["GUARDAPOLVO", "ESTANGA", "SACRAMENTO", "CHAPA", "BUFFET"]
  /** `INTENTOS_MAXIMOS` */
  const MaxAttempts: int := 5
  /** `TIEMPO_POR_FILA`, in seconds */
  const TimePerRow: int := 30
  /** The row length that ENTER and letter input check against. */
  const WordLength: int := 5

  /** The two spellings of the delete key and the submit key. */
  const BackspaceGlyph: string := "\U{232B}"
  const BackspaceName: string := "BACKSPACE"
  const EnterKey: string := "ENTER"

  predicate IsBackspace(key: string)
  {
    key == BackspaceGlyph || key == BackspaceName
  }

  predicate IsEnter(key: string)
  {
    key == EnterKey
  }

  /** A character matched by the class `[A-ZÑ]`. */
  predicate IsLetter(c: char)
  {
    ('A' <= c <= 'Z') || c == '\U{D1}'
  }

  /** A key token matched by `/^[A-ZÑ]$/`: exactly one such character. */
  predicate IsLetterToken(key: string)
  {
    |key| == 1 && IsLetter(key[0])
  }

  predicate AllLetters(w: string)
  {
    forall i :: 0 <= i < |w| ==> IsLetter(w[i])
  }

  /** The five state variables of the game screen. */
  datatype State = State(target: string, attempts: seq<string>, current: string, timeLeft: int, row: int)

  /** What the screen tells the player after a transition: nothing, the
      congratulation dialog, "Game Over" with the word, or "time is up"
      with the word. */
  datatype Signal = Quiet | Won | GameOver(word: string) | TimeUp(word: string)

  datatype Outcome = Outcome(next: State, signal: Signal)

  /** Everything a reachable state satisfies. */
  ghost predicate Inv(s: State)
  {
    && |s.attempts| == s.row
    && s.row <= MaxAttempts
    && 0 <= s.timeLeft <= TimePerRow
    && (s.timeLeft == 0 ==> s.row >= MaxAttempts - 1)
    && |s.current| <= WordLength
    && AllLetters(s.current)
    && (forall i :: 0 <= i < |s.attempts| ==> |s.attempts[i]| <= WordLength && AllLetters(s.attempts[i]))
    && (s.target == "" || s.target in Words)
  }

  /** The values the five variables hold before the first new game. */
  function Initial(): (s: State)
    ensures Inv(s)
    ensures s.attempts == [] && s.current == "" && s.row == 0 && s.timeLeft == TimePerRow
  {
    State("", [], "", TimePerRow, 0)
  }

  /** A value of `Math.random()`. */
  type Draw = r: real | 0.0 <= r < 1.0 witness 0.0

  /** `Math.floor(draw * PALABRAS.length)` */
  function PickIndex(draw: Draw): (i: int)
    ensures 0 <= i < |Words|
    ensures i as real <= draw * |Words| as real < (i + 1) as real
  {
    (draw * |Words| as real).Floor
  }

  /** `iniciarNuevoJuego`: a fresh game on a word of the list. */
  function NewGameState(draw: Draw): (s: State)
    ensures s.target in Words
    ensures s.attempts == [] && s.current == "" && s.row == 0 && s.timeLeft == TimePerRow
    ensures Inv(s)
  {
    State(Words[PickIndex(draw)], [], "", TimePerRow, 0)
  }

  /** `prev.slice(0, -1)` */
  function DropLast(w: string): (d: string)
    ensures |w| == 0 ==> d == ""
    ensures |w| > 0 ==> d + [w[|w| - 1]] == w
  {
    if |w| == 0 then "" else w[..|w| - 1]
  }

  /** `verificarIntento`: a row equal to the word only raises the win
      dialog; any other row is recorded and the next row starts, with
      "Game Over" when the submitted row was the fifth or later. */
  function SubmitStep(s: State): (o: Outcome)
    ensures o.next.target == s.target
    ensures o.signal == Won <==> s.current == s.target
    ensures o.signal == Won ==> o.next == s
    ensures o.signal != Won ==> |o.next.attempts| - o.next.row == |s.attempts| - s.row
  {
    if s.current == s.target then Outcome(s, Won)
    else
      Outcome(State(s.target, s.attempts + [s.current], "", TimePerRow, s.row + 1),
              if s.row >= MaxAttempts - 1 then GameOver(s.target) else Quiet)
  }

  /** `manejarTecla` */
  function KeyStep(s: State, key: string): (o: Outcome)
    ensures o.next.target == s.target
    ensures !o.signal.TimeUp?
    ensures o.next.timeLeft == s.timeLeft || o.next.timeLeft == TimePerRow
    ensures |s.attempts| >= MaxAttempts ==> o == Outcome(s, Quiet)
  {
    if |s.attempts| >= MaxAttempts then Outcome(s, Quiet)
    else if IsBackspace(key) then Outcome(s.(current := DropLast(s.current)), Quiet)
    else if IsEnter(key) then
      if |s.current| == WordLength then SubmitStep(s) else Outcome(s, Quiet)
    else if |s.current| < WordLength && IsLetterToken(key) then Outcome(s.(current := s.current + key), Quiet)
    else Outcome(s, Quiet)
  }

  /** The timer callback: count down; when the last second runs out, force
      the row through (whatever it holds) unless it is the last row, in
      which case the clock stops at zero and the player is told time is up. */
  function TickStep(s: State): (o: Outcome)
    ensures o.next.target == s.target
    ensures !o.signal.Won? && !o.signal.GameOver?
    ensures o.next.row == s.row || o.next.row == s.row + 1
    ensures o.signal.TimeUp? <==> o.next.timeLeft == 0
  {
    if s.timeLeft <= 1 then
      if s.row < MaxAttempts - 1 then
        Outcome(s.(attempts := s.attempts + [s.current], current := "", row := s.row + 1, timeLeft := TimePerRow), Quiet)
      else
        Outcome(s.(timeLeft := 0), TimeUp(s.target))
    else
      Outcome(s.(timeLeft := s.timeLeft - 1), Quiet)
  }

  /** The game screen, its state in five fields. */
  class Game {
    var target: string
    var attempts: seq<string>
    var current: string
    var timeLeft: int
    var row: int

    function Snapshot(): State
      reads this
    {
      State(target, attempts, current, timeLeft, row)
    }

    ghost predicate Valid()
      reads this
    {
      Inv(Snapshot())
    }

    /** The `useState` initial values. */
    constructor ()
      ensures Valid()
      ensures Snapshot() == Initial()
    {
      target := "";
      attempts := [];
      current := "";
      timeLeft := TimePerRow;
      row := 0;
    }

    /** `iniciarNuevoJuego`, with the random draw as a parameter. */
    method NewGame(draw: Draw)
      modifies this
      ensures Valid()
      ensures Snapshot() == NewGameState(draw)
    {
      target := Words[PickIndex(draw)];
      attempts := [];
      current := "";
      timeLeft := TimePerRow;
      row := 0;
    }

    /** `verificarIntento`; its only caller has checked that fewer than
        five rows were submitted. */
    method Submit() returns (signal: Signal)
      requires Valid()
      requires |attempts| < MaxAttempts
      modifies this
      ensures Valid()
      ensures Snapshot() == SubmitStep(old(Snapshot())).next
      ensures signal == SubmitStep(old(Snapshot())).signal
    {
      if current == target {
        return Won;
      }
      signal := if row >= MaxAttempts - 1 then GameOver(target) else Quiet;
      attempts := attempts + [current];
      current := "";
      row := row + 1;
      timeLeft := TimePerRow;
      SubmitKeepsInv(old(Snapshot()));
    }

    /** `manejarTecla` */
    method HandleKey(key: string) returns (signal: Signal)
      requires Valid()
      modifies this
      ensures Valid()
      ensures Snapshot() == KeyStep(old(Snapshot()), key).next
      ensures signal == KeyStep(old(Snapshot()), key).signal
    {
      signal := Quiet;
      if |attempts| >= MaxAttempts {
        return;
      }
      if IsBackspace(key) {
        current := DropLast(current);
      } else if IsEnter(key) {
        if |current| == WordLength {
          signal := Submit();
        }
      } else if |current| < WordLength && IsLetterToken(key) {
        current := current + key;
      }
      KeyKeepsInv(old(Snapshot()), key);
    }

    /** One run of the once-per-second timer callback. */
    method Tick() returns (signal: Signal)
      requires Valid()
      modifies this
      ensures Valid()
      ensures Snapshot() == TickStep(old(Snapshot())).next
      ensures signal == TickStep(old(Snapshot())).signal
    {
      signal := Quiet;
      if timeLeft <= 1 {
        if row < MaxAttempts - 1 {
          attempts := attempts + [current];
          current := "";
          row := row + 1;
          timeLeft := TimePerRow;
        } else {
          timeLeft := 0;
          signal := TimeUp(target);
        }
      } else {
        timeLeft := timeLeft - 1;
      }
      TickKeepsInv(old(Snapshot()));
    }

    /** The grid handed to the board: the submitted rows followed by the
        row being typed, scored against the word. */
    method Display() returns (grid: seq<seq<Verdict>>)
      requires Valid()
      ensures grid == Board(attempts + [current], target)
      ensures forall r, c :: row < r < BoardSize && 0 <= c < BoardSize ==> grid[r][c] == Empty
    {
      grid := Board(attempts + [current], target);
      FutureRowsBlank(Snapshot());
    }
  }

  // ---------------------------------------------------------------------
  // Key input

  /** Either delete key removes exactly the last character of the row being
      typed (nothing on an empty row) and changes nothing else. */
  lemma BackspaceRemovesLast(s: State, key: string)
    requires |s.attempts| < MaxAttempts
    requires IsBackspace(key)
    ensures var o := KeyStep(s, key);
      && o.signal == Quiet
      && o.next == s.(current := o.next.current)
      && (s.current == "" ==> o.next.current == "")
      && (s.current != "" ==> o.next.current + [s.current[|s.current| - 1]] == s.current)
  {
  }

  /** A letter token is none of the command keys. */
  lemma LetterIsNoCommand(key: string)
    requires IsLetterToken(key)
    ensures !IsBackspace(key) && !IsEnter(key)
  {
    assert BackspaceGlyph[0] == '\U{232B}';
  }

  /** A letter token is appended while the row has room; a full row stays
      as it is. */
  lemma LetterAppends(s: State, key: string)
    requires |s.attempts| < MaxAttempts
    requires IsLetterToken(key)
    ensures var o := KeyStep(s, key);
      && o.signal == Quiet
      && o.next == s.(current := if |s.current| < WordLength then s.current + key else s.current)
  {
    LetterIsNoCommand(key);
  }

  /** Any token that is not a delete key, ENTER or a single letter of
      `[A-ZÑ]` changes nothing. */
  lemma OtherTokensIgnored(s: State, key: string)
    requires !IsBackspace(key) && !IsEnter(key)
    requires !IsLetterToken(key)
    ensures KeyStep(s, key) == Outcome(s, Quiet)
  {
  }

  /** ENTER on a row that is not exactly five characters long changes nothing. */
  lemma ShortEnterIgnored(s: State)
    requires |s.current| != WordLength
    ensures KeyStep(s, EnterKey) == Outcome(s, Quiet)
  {
  }

  /** ENTER on a full row submits it. */
  lemma FullEnterSubmits(s: State)
    requires |s.attempts| < MaxAttempts && |s.current| == WordLength
    ensures KeyStep(s, EnterKey) == SubmitStep(s)
  {
  }

  /** After five recorded rows no key has any effect. */
  lemma FrozenAfterLastRow(s: State, key: string)
    requires |s.attempts| >= MaxAttempts
    ensures KeyStep(s, key) == Outcome(s, Quiet)
  {
  }

  /** Every key press keeps the invariant; in particular the row being
      typed never grows past five characters, all of them from `[A-ZÑ]`. */
  lemma KeyKeepsInv(s: State, key: string)
    requires Inv(s)
    ensures Inv(KeyStep(s, key).next)
  {
    if |s.attempts| < MaxAttempts && IsEnter(key) && |s.current| == WordLength {
      SubmitKeepsInv(s);
    } else if |s.attempts| < MaxAttempts && IsBackspace(key) {
      var w := KeyStep(s, key).next.current;
      assert forall i :: 0 <= i < |w| ==> w[i] == s.current[i];
    } else if |s.attempts| < MaxAttempts && !IsEnter(key) && |s.current| < WordLength && IsLetterToken(key) {
      var w := s.current + key;
      assert forall i :: 0 <= i < |w| ==> w[i] == if i < |s.current| then s.current[i] else key[0];
    }
  }

  // ---------------------------------------------------------------------
  // Submission

  /** A row equal to the word changes no state at all; only the win dialog
      is raised. */
  lemma MatchingGuessKeepsState(s: State)
    requires s.current == s.target
    ensures SubmitStep(s) == Outcome(s, Won)
  {
  }

  /** Any other row is appended verbatim, the typing row is cleared, the row
      index moves on by one and the clock is reset; "Game Over" (with the
      word) is raised exactly when the submitted row index was 4 or more. */
  lemma MismatchAdvances(s: State)
    requires s.current != s.target
    ensures var o := SubmitStep(s);
      && o.next.target == s.target
      && o.next.attempts == s.attempts + [s.current]
      && o.next.current == ""
      && o.next.row == s.row + 1
      && o.next.timeLeft == TimePerRow
      && (o.signal != Quiet <==> s.row >= MaxAttempts - 1)
      && (o.signal != Quiet ==> o.signal == GameOver(s.target))
      && (|s.attempts| == s.row ==> |o.next.attempts| == o.next.row)
  {
  }

  lemma SubmitKeepsInv(s: State)
    requires Inv(s)
    requires |s.attempts| < MaxAttempts
    ensures Inv(SubmitStep(s).next)
  {
    var t := SubmitStep(s).next;
    if s.current != s.target {
      assert forall i :: 0 <= i < |t.attempts| ==> t.attempts[i] == if i < |s.attempts| then s.attempts[i] else s.current;
    }
  }

  /** Every word of the list but "CHAPA" has a length other than five. */
  lemma OnlyChapaFits(w: string)
    requires w in Words
    ensures |w| == WordLength <==> w == "CHAPA"
  {
  }

  /** A win is only possible when the word is "CHAPA": the winning row must
      be five letters long, and no other word of the list is. */
  lemma WonOnlyForChapa(s: State, key: string)
    requires Inv(s)
    requires KeyStep(s, key).signal == Won
    ensures s.target == "CHAPA" && s.current == "CHAPA"
    ensures KeyStep(s, key).next == s
  {
    assert s.target != "";
    OnlyChapaFits(s.target);
  }

  // ---------------------------------------------------------------------
  // The timer

  /** The three cases of a tick. */
  lemma TickCases(s: State)
    ensures var o := TickStep(s);
      && (s.timeLeft > 1 ==> o == Outcome(s.(timeLeft := s.timeLeft - 1), Quiet))
      && (s.timeLeft <= 1 && s.row < MaxAttempts - 1 ==>
            && o.signal == Quiet
            && o.next.target == s.target
            && o.next.attempts == s.attempts + [s.current]
            && o.next.current == ""
            && o.next.row == s.row + 1
            && o.next.timeLeft == TimePerRow)
      && (s.timeLeft <= 1 && s.row >= MaxAttempts - 1 ==>
            o == Outcome(s.(timeLeft := 0), TimeUp(s.target)))
  {
  }

  lemma TickKeepsInv(s: State)
    requires Inv(s)
    ensures Inv(TickStep(s).next)
  {
    var t := TickStep(s).next;
    if s.timeLeft <= 1 && s.row < MaxAttempts - 1 {
      assert forall i :: 0 <= i < |t.attempts| ==> t.attempts[i] == if i < |s.attempts| then s.attempts[i] else s.current;
    }
  }

  /** `k` ticks in a row, with their signals dropped. */
  function Ticks(s: State, k: nat): State
    decreases k
  {
    if k == 0 then s else Ticks(TickStep(s).next, k - 1)
  }

  /** Fewer ticks than the seconds left only count the clock down. */
  lemma {:induction false} TicksCountDown(s: State, k: nat)
    requires k < s.timeLeft
    ensures Ticks(s, k) == s.(timeLeft := s.timeLeft - k)
    decreases k
  {
    if k > 0 {
      var t := TickStep(s).next;
      assert t == s.(timeLeft := s.timeLeft - 1);
      TicksCountDown(t, k - 1);
    }
  }

  /** When a row's seconds have all run out, the row is forced through
      exactly as typed (short or empty) and the next row starts with a full
      clock; on the last row the clock stops at zero and no row is added. */
  lemma {:induction false} RowTimesOut(s: State)
    requires s.timeLeft >= 1
    ensures var t := Ticks(s, s.timeLeft as nat);
      && (s.row < MaxAttempts - 1 ==>
            t == s.(attempts := s.attempts + [s.current], current := "", row := s.row + 1, timeLeft := TimePerRow))
      && (s.row >= MaxAttempts - 1 ==> t == s.(timeLeft := 0))
  {
    var k := s.timeLeft - 1;
    TicksCountDown(s, k);
    TicksSplit(s, k, 1);
  }

  lemma {:induction false} TicksSplit(s: State, j: nat, k: nat)
    ensures Ticks(s, j + k) == Ticks(Ticks(s, j), k)
    decreases j
  {
    if j > 0 {
      TicksSplit(TickStep(s).next, j - 1, k);
    }
  }

  // ---------------------------------------------------------------------
  // Whole sessions

  /** One input to the session: a key token, a second of the clock, or a
      new game with its random draw. */
  datatype Event = Press(key: string) | Second | Restart(draw: Draw)

  function Apply(s: State, e: Event): Outcome
  {
    match e
    case Press(key) => KeyStep(s, key)
    case Second => TickStep(s)
    case Restart(draw) => Outcome(NewGameState(draw), Quiet)
  }

  /** The final state and the signals of a sequence of events. */
  function Run(s: State, events: seq<Event>): (State, seq<Signal>)
    decreases |events|
  {
    if events == [] then (s, [])
    else
      var o := Apply(s, events[0]);
      var r := Run(o.next, events[1..]);
      (r.0, [o.signal] + r.1)
  }

  lemma ApplyKeepsInv(s: State, e: Event)
    requires Inv(s)
    ensures Inv(Apply(s, e).next)
  {
    match e
    case Press(key) => KeyKeepsInv(s, key);
    case Second => TickKeepsInv(s);
    case Restart(draw) =>
  }

  /** Every state reached from a consistent one is consistent: in
      particular the number of recorded rows always equals the row index,
      which stays within 0..5, and the clock within 0..30. */
  lemma {:induction false} RunKeepsInv(s: State, events: seq<Event>)
    requires Inv(s)
    ensures Inv(Run(s, events).0)
    ensures |Run(s, events).1| == |events|
    decreases |events|
  {
    if events != [] {
      ApplyKeepsInv(s, events[0]);
      RunKeepsInv(Apply(s, events[0]).next, events[1..]);
    }
  }

  /** Without a new game, a session on any word other than "CHAPA" never
      raises the win dialog. */
  lemma {:induction false} NoWinUnlessChapa(s: State, events: seq<Event>)
    requires Inv(s) && s.target != "CHAPA"
    requires forall i :: 0 <= i < |events| ==> !events[i].Restart?
    ensures Won !in Run(s, events).1
    decreases |events|
  {
    if events != [] {
      var o := Apply(s, events[0]);
      if events[0].Press? {
        KeyKeepsInv(s, events[0].key);
        if o.signal == Won {
          WonOnlyForChapa(s, events[0].key);
        }
      } else {
        TickKeepsInv(s);
      }
      assert o.next.target == s.target;
      NoWinUnlessChapa(o.next, events[1..]);
    }
  }

  lemma RunCons(s: State, e: Event, rest: seq<Event>)
    ensures var o := Apply(s, e);
      Run(s, [e] + rest) == (Run(o.next, rest).0, [o.signal] + Run(o.next, rest).1)
  {
    assert ([e] + rest)[1..] == rest;
  }

  /** One key press per character of `w`. */
  function Presses(w: string): seq<Event>
  {
    if w == "" then [] else [Press([w[0]])] + Presses(w[1..])
  }

  function Quiets(n: nat): seq<Signal>
  {
    if n == 0 then [] else [Quiet] + Quiets(n - 1)
  }

  /** Typing letters into a row that has room for them appends them one by
      one, silently, and changes nothing else. */
  lemma {:induction false} TypingAppends(s: State, w: string)
    requires |s.attempts| < MaxAttempts
    requires |s.current| + |w| <= WordLength
    requires AllLetters(w)
    ensures Run(s, Presses(w)) == (s.(current := s.current + w), Quiets(|w|))
    decreases |w|
  {
    if w == "" {
      assert s.current + w == s.current;
    } else {
      var t := s.(current := s.current + [w[0]]);
      var r := Run(t, Presses(w[1..]));
      assert r == (t.(current := t.current + w[1..]), Quiets(|w| - 1)) by {
        assert AllLetters(w[1..]) by {
          forall i | 0 <= i < |w[1..]| ensures IsLetter(w[1..][i]) {
            assert w[1..][i] == w[i + 1];
          }
        }
        TypingAppends(t, w[1..]);
      }
      assert Run(s, Presses(w)) == (r.0, [Quiet] + r.1) by {
        LetterAppends(s, [w[0]]);
        assert Presses(w) == [Press([w[0]])] + Presses(w[1..]);
        RunCons(s, Press([w[0]]), Presses(w[1..]));
      }
      assert t.current + w[1..] == s.current + w;
      assert [Quiet] + Quiets(|w| - 1) == Quiets(|w|);
    }
  }

  /** A draw in [0.6, 0.8) starts a game on "CHAPA". */
  lemma ChapaDraw(draw: Draw)
    requires 0.6 <= draw < 0.8
    ensures NewGameState(draw).target == "CHAPA"
  {
    assert PickIndex(draw) == 3;
  }

  /** On "CHAPA" with nothing typed, C, H, A, P, A fill the row one letter
      at a time, and ENTER then raises the win signal and records no row. */
  lemma ChapaScenario(s: State)
    requires s.target == "CHAPA" && s.current == "" && |s.attempts| < MaxAttempts
    ensures KeyStep(s, "C") == Outcome(s.(current := "C"), Quiet)
    ensures KeyStep(s.(current := "C"), "H") == Outcome(s.(current := "CH"), Quiet)
    ensures KeyStep(s.(current := "CH"), "A") == Outcome(s.(current := "CHA"), Quiet)
    ensures KeyStep(s.(current := "CHA"), "P") == Outcome(s.(current := "CHAP"), Quiet)
    ensures KeyStep(s.(current := "CHAP"), "A") == Outcome(s.(current := "CHAPA"), Quiet)
    ensures KeyStep(s.(current := "CHAPA"), EnterKey) == Outcome(s.(current := "CHAPA"), Won)
  {
  }

  /** On "CHAPA" with "BUFF" typed, ENTER does nothing; after "E", ENTER
      records "BUFFE" as a wrong first row with a fresh clock. */
  lemma ShortRowScenario(s: State)
    requires s.target == "CHAPA" && s.attempts == [] && s.current == "BUFF" && s.row == 0
    ensures KeyStep(s, EnterKey) == Outcome(s, Quiet)
    ensures KeyStep(s, "E") == Outcome(s.(current := "BUFFE"), Quiet)
    ensures KeyStep(s.(current := "BUFFE"), EnterKey)
         == Outcome(s.(attempts := ["BUFFE"], current := "", timeLeft := TimePerRow, row := 1), Quiet)
  {
  }

  // ---------------------------------------------------------------------
  // What the board shows

  /** The board never scores the rows below the one being typed: they are
      all blank. */
  lemma FutureRowsBlank(s: State)
    requires Inv(s)
    ensures forall r, c :: s.row < r < BoardSize && 0 <= c < BoardSize ==>
      Board(s.attempts + [s.current], s.target)[r][c] == Empty
  {
  }
}
