/** The event loop of `main`: the pending move, the drag flag and the run flag, updated per
    input event, with a frame drawn and the game-ending check made after every event. */
module EventLoop {
  import opened Optional
  import opened Notation
  import opened Oracle
  import opened Ending
  import opened Render

  /** The event types the loop distinguishes. */
  datatype Event = MouseButtonDown | MouseButtonUp | Quit | OtherEvent

  /** An event together with the pointer position when it is handled
      (`pygame.mouse.get_pos()`). */
  datatype Input = Input(event: Event, pointer: (int, int))

  predicate PointerInWindow(input: Input) {
    InWindow(input.pointer.0, input.pointer.1)
  }

  predicate AllInWindow(inputs: seq<Input>) {
    forall i :: 0 <= i < |inputs| ==> PointerInWindow(inputs[i])
  }

  /** The first button event is a press, so a release never comes before the origin cell
      has been set. */
  predicate PressBeforeRelease(inputs: seq<Input>) {
    if inputs == [] then true
    else match inputs[0].event
      case MouseButtonDown => true
      case MouseButtonUp => false
      case _ => PressBeforeRelease(inputs[1..])
  }

  /** No event is a quit. */
  predicate NoQuit(inputs: seq<Input>) {
    inputs == [] || (inputs[0].event != Quit && NoQuit(inputs[1..]))
  }

  lemma {:induction false} NoQuitAppend(seen: seq<Input>, more: seq<Input>)
    ensures NoQuit(seen + more) <==> NoQuit(seen) && NoQuit(more)
    decreases |seen|
  {
    if seen == [] {
      assert seen + more == more;
    } else {
      assert (seen + more)[0] == seen[0] && (seen + more)[1..] == seen[1..] + more;
      NoQuitAppend(seen[1..], more);
    }
  }

  /** The events of successive `pygame.event.get()` batches, in order. */
  function Flatten(batches: seq<seq<Input>>): seq<Input> {
    if batches == [] then [] else batches[0] + Flatten(batches[1..])
  }

  lemma {:induction false} FlattenAppend(batches: seq<seq<Input>>, batch: seq<Input>)
    ensures Flatten(batches + [batch]) == Flatten(batches) + batch
    decreases |batches|
  {
    if batches == [] {
      assert [batch][1..] == [];
      assert batch + [] == batch;
    } else {
      assert (batches + [batch])[1..] == batches[1..] + [batch];
      FlattenAppend(batches[1..], batch);
    }
  }

  /** The events of the batches before b, then those from b on, are all the events. */
  lemma {:induction false} FlattenSplit(batches: seq<seq<Input>>, b: int)
    requires 0 <= b <= |batches|
    ensures Flatten(batches[..b]) + Flatten(batches[b..]) == Flatten(batches)
    decreases b
  {
    if b == 0 {
      assert batches[..0] == [] && batches[0..] == batches;
    } else {
      var rest := batches[1..];
      assert batches[..b] == [batches[0]] + rest[..b - 1];
      assert batches[b..] == rest[b - 1..];
      FlattenSplit(rest, b - 1);
      assert ([batches[0]] + rest[..b - 1])[1..] == rest[..b - 1];
      assert batches[0] + Flatten(rest[..b - 1]) + Flatten(rest[b - 1..]) ==
        batches[0] + (Flatten(rest[..b - 1]) + Flatten(rest[b - 1..]));
    }
  }

  /** One more batch: it follows the events of the batches before it, and precedes those
      of the batches after it. */
  lemma BatchAt(batches: seq<seq<Input>>, b: int)
    requires 0 <= b < |batches|
    ensures Flatten(batches[..b + 1]) == Flatten(batches[..b]) + batches[b]
    ensures Flatten(batches[b..]) == batches[b] + Flatten(batches[b + 1..])
  {
    assert batches[..b + 1] == batches[..b] + [batches[b]];
    FlattenAppend(batches[..b], batches[b]);
    assert batches[b..][0] == batches[b] && batches[b..][1..] == batches[b + 1..];
  }

  /** What `main` keeps between events: `move`, `drag`, `run` and the board's move stack. */
  datatype State = State(origin: Option<Cell>, dest: Option<Cell>, drag: bool, run: bool, history: seq<string>)

  /** The pending cells are on the board, a drag has an origin, and the moves form a legal
      game. */
  predicate Consistent(rules: Rules, s: State) {
    (s.origin.Some? ==> OnBoard(s.origin.value)) &&
    (s.dest.Some? ==> OnBoard(s.dest.value)) &&
    (s.drag ==> s.origin.Some?) &&
    LegalGame(rules, s.history)
  }

  /** The state change one event makes. */
  function Step(rules: Rules, flip: bool, s: State, input: Input): (t: State)
    requires Consistent(rules, s) && PointerInWindow(input)
    requires input.event == MouseButtonUp ==> s.origin.Some?
    ensures Consistent(rules, t)
  {
    var cell := GetMove(input.pointer.0, input.pointer.1);
    var moved := match input.event
      case MouseButtonDown => s.(origin := Some(cell), drag := true)
      case MouseButtonUp =>
        var uci := MoveUci(s.origin.value, cell, flip);
        if rules.parses(uci) && uci in rules.legal(s.history) then
          LegalGameExtend(rules, s.history, uci);
          s.(dest := Some(cell), drag := false, history := s.history + [uci])
        else s.(dest := Some(cell), drag := false)
      case _ => s;
    moved.(run := s.run && input.event != Quit)
  }

  /** A press sets the origin cell and starts a drag; a release sets the destination cell,
      pushes the move when the library parses it and finds it legal, and ends the drag;
      other events leave the pending move, the drag and the moves alone; a quit event clears
      the run flag. */
  lemma StepEffect(rules: Rules, flip: bool, s: State, input: Input)
    requires Consistent(rules, s) && PointerInWindow(input)
    requires input.event == MouseButtonUp ==> s.origin.Some?
    ensures var t := Step(rules, flip, s, input);
      t.run == (s.run && input.event != Quit) &&
      (input.event == MouseButtonDown ==>
        t.origin == Some(GetMove(input.pointer.0, input.pointer.1)) && t.dest == s.dest && t.drag &&
        t.history == s.history) &&
      (input.event == MouseButtonUp ==>
        t.origin == s.origin && t.dest == Some(GetMove(input.pointer.0, input.pointer.1)) && !t.drag &&
        var uci := MoveUci(s.origin.value, t.dest.value, flip);
        t.history == if rules.parses(uci) && uci in rules.legal(s.history) then s.history + [uci] else s.history) &&
      (input.event != MouseButtonDown && input.event != MouseButtonUp ==>
        t.origin == s.origin && t.dest == s.dest && t.drag == s.drag && t.history == s.history)
  {
  }

  /** Events whose releases all have an origin cell. */
  predicate Playable(s: State, inputs: seq<Input>) {
    s.origin.Some? || PressBeforeRelease(inputs)
  }

  /** After the first event the rest of the events still have an origin cell for every
      release. */
  lemma StepPlayable(rules: Rules, flip: bool, s: State, inputs: seq<Input>)
    requires Consistent(rules, s) && inputs != [] && AllInWindow(inputs) && Playable(s, inputs)
    ensures PointerInWindow(inputs[0]) && (inputs[0].event == MouseButtonUp ==> s.origin.Some?)
    ensures AllInWindow(inputs[1..])
    ensures Playable(Step(rules, flip, s, inputs[0]), inputs[1..])
  {
    assert PointerInWindow(inputs[0]);
    assert forall i :: 0 <= i < |inputs[1..]| ==> inputs[1..][i] == inputs[i + 1];
    StepEffect(rules, flip, s, inputs[0]);
  }

  /** The state after a sequence of events. */
  function Fold(rules: Rules, flip: bool, s: State, inputs: seq<Input>): (t: State)
    requires Consistent(rules, s) && AllInWindow(inputs) && Playable(s, inputs)
    ensures Consistent(rules, t)
    decreases |inputs|
  {
    if inputs == [] then s
    else
      StepPlayable(rules, flip, s, inputs);
      Fold(rules, flip, Step(rules, flip, s, inputs[0]), inputs[1..])
  }

  /** What is shown after one event: the frame of the new state and its ending message. */
  datatype Shown = Shown(frame: seq<Draw>, ending: Option<string>)

  function Show(rules: Rules, flip: bool, s: State, pointer: (int, int)): Shown
    requires Consistent(rules, s)
  {
    Shown(Frame(rules, s.history, s.origin, flip, s.drag, pointer), TestForEnding(rules.status(s.history)))
  }

  /** What is shown after each of a sequence of events, one entry per event. */
  function Outputs(rules: Rules, flip: bool, s: State, inputs: seq<Input>): (out: seq<Shown>)
    requires Consistent(rules, s) && AllInWindow(inputs) && Playable(s, inputs)
    ensures |out| == |inputs|
    decreases |inputs|
  {
    if inputs == [] then []
    else
      StepPlayable(rules, flip, s, inputs);
      var t := Step(rules, flip, s, inputs[0]);
      [Show(rules, flip, t, inputs[0].pointer)] + Outputs(rules, flip, t, inputs[1..])
  }

  /** Handling a non-empty run of events is taking the first one, then the rest. */
  lemma Unroll(rules: Rules, flip: bool, s: State, inputs: seq<Input>, before: seq<Shown>)
    requires Consistent(rules, s) && inputs != [] && AllInWindow(inputs) && Playable(s, inputs)
    ensures PointerInWindow(inputs[0]) && (inputs[0].event == MouseButtonUp ==> s.origin.Some?)
    ensures AllInWindow(inputs[1..]) && Playable(Step(rules, flip, s, inputs[0]), inputs[1..])
    ensures Fold(rules, flip, s, inputs) == Fold(rules, flip, Step(rules, flip, s, inputs[0]), inputs[1..])
    ensures before + Outputs(rules, flip, s, inputs) ==
      before + [Show(rules, flip, Step(rules, flip, s, inputs[0]), inputs[0].pointer)] +
      Outputs(rules, flip, Step(rules, flip, s, inputs[0]), inputs[1..])
  {
    StepPlayable(rules, flip, s, inputs);
    var t := Step(rules, flip, s, inputs[0]);
    var y, rest := Show(rules, flip, t, inputs[0].pointer), Outputs(rules, flip, t, inputs[1..]);
    assert Outputs(rules, flip, s, inputs) == [y] + rest;
    assert before + ([y] + rest) == before + [y] + rest;
  }

  /** Splitting events that all have an origin for each release leaves two such runs. */
  lemma {:induction false} PlayableSplit(rules: Rules, flip: bool, s: State, a: seq<Input>, c: seq<Input>)
    requires Consistent(rules, s) && AllInWindow(a + c) && Playable(s, a + c)
    ensures AllInWindow(a) && Playable(s, a)
    ensures AllInWindow(c) && Playable(Fold(rules, flip, s, a), c)
    decreases |a|
  {
    if a == [] {
      assert a + c == c;
    } else {
      assert (a + c)[0] == a[0] && (a + c)[1..] == a[1..] + c;
      assert forall i :: 0 <= i < |a| ==> a[i] == (a + c)[i];
      StepPlayable(rules, flip, s, a + c);
      StepEffect(rules, flip, s, a[0]);
      PlayableSplit(rules, flip, Step(rules, flip, s, a[0]), a[1..], c);
    }
  }

  /** Handling a + c ends where handling c from the state a left ends. */
  lemma {:induction false} FoldAppend(rules: Rules, flip: bool, s: State, a: seq<Input>, c: seq<Input>)
    requires Consistent(rules, s) && AllInWindow(a + c) && Playable(s, a + c)
    requires AllInWindow(a) && Playable(s, a) && AllInWindow(c) && Playable(Fold(rules, flip, s, a), c)
    ensures Fold(rules, flip, s, a + c) == Fold(rules, flip, Fold(rules, flip, s, a), c)
    decreases |a|
  {
    if a == [] {
      assert a + c == c;
    } else {
      assert (a + c)[0] == a[0] && (a + c)[1..] == a[1..] + c;
      StepPlayable(rules, flip, s, a + c);
      StepPlayable(rules, flip, s, a);
      FoldAppend(rules, flip, Step(rules, flip, s, a[0]), a[1..], c);
    }
  }

  /** What is shown while handling a + c is what is shown while handling a, then while
      handling c from the state a left. */
  lemma {:induction false} OutputsAppend(rules: Rules, flip: bool, s: State, a: seq<Input>, c: seq<Input>)
    requires Consistent(rules, s) && AllInWindow(a + c) && Playable(s, a + c)
    requires AllInWindow(a) && Playable(s, a) && AllInWindow(c) && Playable(Fold(rules, flip, s, a), c)
    ensures Outputs(rules, flip, s, a + c) == Outputs(rules, flip, s, a) + Outputs(rules, flip, Fold(rules, flip, s, a), c)
    decreases |a|
  {
    if a == [] {
      assert a + c == c;
    } else {
      var x, a' := a[0], a[1..];
      assert (a + c)[0] == x && (a + c)[1..] == a' + c;
      StepPlayable(rules, flip, s, a + c);
      StepPlayable(rules, flip, s, a);
      var t := Step(rules, flip, s, x);
      OutputsAppend(rules, flip, t, a', c);
      var y := Show(rules, flip, t, x.pointer);
      var o, o' := Outputs(rules, flip, t, a'), Outputs(rules, flip, Fold(rules, flip, t, a'), c);
      assert [y] + (o + o') == [y] + o + o';
    }
  }

  /** The run flag after a sequence of events: set exactly when it was set and no event was
      a quit. */
  lemma {:induction false} FoldRun(rules: Rules, flip: bool, s: State, inputs: seq<Input>)
    requires Consistent(rules, s) && AllInWindow(inputs) && Playable(s, inputs)
    ensures Fold(rules, flip, s, inputs).run == (s.run && NoQuit(inputs))
    decreases |inputs|
  {
    if inputs != [] {
      StepPlayable(rules, flip, s, inputs);
      StepEffect(rules, flip, s, inputs[0]);
      FoldRun(rules, flip, Step(rules, flip, s, inputs[0]), inputs[1..]);
      NoQuitAppend([inputs[0]], inputs[1..]);
      assert inputs == [inputs[0]] + inputs[1..];
    }
  }

  /** The moves only grow: every event pushes at most one move. */
  lemma {:induction false} FoldExtends(rules: Rules, flip: bool, s: State, inputs: seq<Input>)
    requires Consistent(rules, s) && AllInWindow(inputs) && Playable(s, inputs)
    ensures s.history <= Fold(rules, flip, s, inputs).history
    ensures |Fold(rules, flip, s, inputs).history| <= |s.history| + |inputs|
    decreases |inputs|
  {
    if inputs != [] {
      StepPlayable(rules, flip, s, inputs);
      StepEffect(rules, flip, s, inputs[0]);
      FoldExtends(rules, flip, Step(rules, flip, s, inputs[0]), inputs[1..]);
    }
  }

  /** The number of batches the game loop handles: all of them, or those up to and including
      the first that holds a quit event, since the run flag is only checked between batches. */
  function Handled(batches: seq<seq<Input>>): (n: nat)
    ensures n <= |batches|
    ensures forall j :: 0 <= j < n - 1 ==> NoQuit(batches[j])
    ensures n < |batches| ==> n > 0 && !NoQuit(batches[n - 1])
    decreases |batches|
  {
    if batches == [] then 0
    else if NoQuit(batches[0]) then 1 + Handled(batches[1..])
    else 1
  }

  lemma HandledStep(batches: seq<seq<Input>>, b: int)
    requires 0 <= b < |batches|
    ensures Handled(batches[b..]) == if NoQuit(batches[b]) then 1 + Handled(batches[b + 1..]) else 1
  {
    assert batches[b..][0] == batches[b] && batches[b..][1..] == batches[b + 1..];
  }

  /** Handling `inputs` from `start` ends in state `s` having shown `shown`. */
  ghost predicate Reached(rules: Rules, flip: bool, start: State, inputs: seq<Input>, s: State, shown: seq<Shown>) {
    Consistent(rules, start) && AllInWindow(inputs) && Playable(start, inputs) &&
    s == Fold(rules, flip, start, inputs) && shown == Outputs(rules, flip, start, inputs)
  }

  /** Handling batch b after the batches before it: the events so far grow by the batch,
      and the state, the outputs and the run flag follow. */
  lemma BatchStep(rules: Rules, flip: bool, start: State, batches: seq<seq<Input>>, b: int,
                  cur: State, before: seq<Shown>)
    requires 0 <= b < |batches| && Consistent(rules, start)
    requires AllInWindow(Flatten(batches)) && Playable(start, Flatten(batches))
    requires Reached(rules, flip, start, Flatten(batches[..b]), cur, before)
    ensures Consistent(rules, cur) && AllInWindow(batches[b]) && Playable(cur, batches[b])
    ensures Reached(rules, flip, start, Flatten(batches[..b + 1]),
                    Fold(rules, flip, cur, batches[b]), before + Outputs(rules, flip, cur, batches[b]))
    ensures Fold(rules, flip, cur, batches[b]).run == (cur.run && NoQuit(batches[b]))
    ensures NoQuit(Flatten(batches[..b + 1])) == (NoQuit(Flatten(batches[..b])) && NoQuit(batches[b]))
    ensures Handled(batches[b..]) == if NoQuit(batches[b]) then 1 + Handled(batches[b + 1..]) else 1
  {
    var batch, done, later := batches[b], Flatten(batches[..b]), Flatten(batches[b + 1..]);
    BatchAt(batches, b);
    FlattenSplit(batches, b);
    FlattenSplit(batches, b + 1);
    assert done + batch + later == Flatten(batches);
    PlayableSplit(rules, flip, start, done + batch, later);
    PlayableSplit(rules, flip, start, done, batch);
    FoldAppend(rules, flip, start, done, batch);
    OutputsAppend(rules, flip, start, done, batch);
    FoldRun(rules, flip, cur, batch);
    NoQuitAppend(done, batch);
    HandledStep(batches, b);
  }

  /** When the game loop stops after b batches, either all batches were handled without a
      quit, or batch b - 1 held the first quit: b is the handled count either way. */
  lemma RunEnds(batches: seq<seq<Input>>, b: int, run: bool)
    requires 0 <= b <= |batches| && !(run && b < |batches|)
    requires run <==> NoQuit(Flatten(batches[..b]))
    requires Handled(batches) == if run then b + Handled(batches[b..]) else b
    ensures Handled(batches) == b
    ensures run <==> NoQuit(Flatten(batches))
  {
    FlattenSplit(batches, b);
    if run {
      assert batches[b..] == [];
      assert Flatten(batches[..b]) + [] == Flatten(batches[..b]);
    } else {
      NoQuitAppend(Flatten(batches[..b]), Flatten(batches[b..]));
    }
  }

  /** The state `main` keeps between events. */
  class Game {
    const board: Board
    const flip: bool
    var origin: Option<Cell>   // `move[0]`
    var dest: Option<Cell>     // `move[1]`
    var drag: bool
    var run: bool

    function Snapshot(): State
      reads this, board
    {
      State(origin, dest, drag, run, board.history)
    }

    ghost predicate Valid()
      reads this, board
    {
      Consistent(board.rules, Snapshot())
    }

    /** The start of `main`: no pending move, no drag, a new board, running. */
    constructor (rules: Rules, flip: bool)
      ensures Valid() && fresh(board) && board.rules == rules && this.flip == flip
      ensures Snapshot() == State(None, None, false, true, [])
    {
      board := new Board(rules);
      this.flip := flip;
      origin, dest := None, None;
      drag, run := false, true;
    }

    /** The state change of one pass of the event handler. */
    method Respond(input: Input)
      requires Valid() && PointerInWindow(input)
      requires input.event == MouseButtonUp ==> origin.Some?
      modifies this, board
      ensures Valid()
      ensures Snapshot() == Step(board.rules, flip, old(Snapshot()), input)
    {
      match input.event {
        case MouseButtonDown =>
          origin := Some(GetMove(input.pointer.0, input.pointer.1));
          drag := true;
        case MouseButtonUp =>
          dest := Some(GetMove(input.pointer.0, input.pointer.1));
          var _ := TryMove(board, origin.value, dest.value, flip);
          drag := false;
        case _ =>
      }
      if input.event == Quit {
        run := false;
      }
    }

    /** One pass of the event handler: the event's state change, then the frame drawn from
        the new state and the game-ending check on the new position. */
    method HandleEvent(input: Input) returns (shown: Shown)
      requires Valid() && PointerInWindow(input)
      requires input.event == MouseButtonUp ==> origin.Some?
      modifies this, board
      ensures Valid()
      ensures Snapshot() == Step(board.rules, flip, old(Snapshot()), input)
      ensures shown == Show(board.rules, flip, Snapshot(), input.pointer)
    {
      Respond(input);
      assert board.Valid();
      var frame := DrawBoard(board, origin, flip, drag, input.pointer);
      var ending := TestForEnding(board.rules.status(board.history));
      shown := Shown(frame, ending);
    }

    /** One batch of `pygame.event.get()`, handled event by event. */
    method HandleBatch(batch: seq<Input>) returns (shown: seq<Shown>)
      requires Valid() && AllInWindow(batch) && Playable(Snapshot(), batch)
      modifies this, board
      ensures Valid()
      ensures Snapshot() == Fold(board.rules, flip, old(Snapshot()), batch)
      ensures shown == Outputs(board.rules, flip, old(Snapshot()), batch)
    {
      ghost var start := Snapshot();
      shown := [];
      var k := 0;
      assert batch[0..] == batch;
      while k < |batch|
        invariant 0 <= k <= |batch| && Valid()
        invariant AllInWindow(batch[k..]) && Playable(Snapshot(), batch[k..])
        invariant Fold(board.rules, flip, Snapshot(), batch[k..]) == Fold(board.rules, flip, start, batch)
        invariant shown + Outputs(board.rules, flip, Snapshot(), batch[k..]) == Outputs(board.rules, flip, start, batch)
      {
        var input := batch[k];
        Unroll(board.rules, flip, Snapshot(), batch[k..], shown);
        assert batch[k..][0] == input && batch[k..][1..] == batch[k + 1..];
        var one := HandleEvent(input);
        shown := shown + [one];
        k := k + 1;
      }
      assert shown + [] == shown;
    }

    /** One pass of the game loop: batch b, after the batches before it were handled
        without a quit. */
    method RunBatch(batches: seq<seq<Input>>, b: int, ghost start: State, ghost before: seq<Shown>)
      returns (more: seq<Shown>)
      requires 0 <= b < |batches| && Valid() && run
      requires Consistent(board.rules, start) && AllInWindow(Flatten(batches)) && Playable(start, Flatten(batches))
      requires Reached(board.rules, flip, start, Flatten(batches[..b]), Snapshot(), before)
      requires NoQuit(Flatten(batches[..b]))
      modifies this, board
      ensures Valid()
      ensures Reached(board.rules, flip, start, Flatten(batches[..b + 1]), Snapshot(), before + more)
      ensures run <==> NoQuit(Flatten(batches[..b + 1]))
      ensures Handled(batches[b..]) == if run then 1 + Handled(batches[b + 1..]) else 1
    {
      BatchStep(board.rules, flip, start, batches, b, Snapshot(), before);
      more := HandleBatch(batches[b]);
    }

    /** The game loop: event batches are handled while the run flag is set. The flag is
        checked between batches, so the loop handles every batch up to and including the first
        one that holds a quit event, and the state and frames are those of exactly those
        events. */
    method Run(batches: seq<seq<Input>>) returns (shown: seq<Shown>)
      requires Valid() && run
      requires AllInWindow(Flatten(batches)) && Playable(Snapshot(), Flatten(batches))
      modifies this, board
      ensures Valid()
      ensures AllInWindow(Flatten(batches[..Handled(batches)]))
      ensures Playable(old(Snapshot()), Flatten(batches[..Handled(batches)]))
      ensures Snapshot() == Fold(board.rules, flip, old(Snapshot()), Flatten(batches[..Handled(batches)]))
      ensures shown == Outputs(board.rules, flip, old(Snapshot()), Flatten(batches[..Handled(batches)]))
      ensures run <==> NoQuit(Flatten(batches))
    {
      ghost var start := Snapshot();
      shown := [];
      var b := 0;
      FlattenSplit(batches, 0);
      assert batches[..0] == [];
      while run && b < |batches|
        invariant 0 <= b <= |batches| && Valid()
        invariant Reached(board.rules, flip, start, Flatten(batches[..b]), Snapshot(), shown)
        invariant run <==> NoQuit(Flatten(batches[..b]))
        invariant Handled(batches) == if run then b + Handled(batches[b..]) else b
        decreases |batches| - b
      {
        var more := RunBatch(batches, b, start, shown);
        shown := shown + more;
        b := b + 1;
      }
      RunEnds(batches, b, run);
    }
  }
}
