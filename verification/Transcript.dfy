/** src/codex_capacity.rs: the outcome of a turn, read from a bounded tail of a growing transcript. */
module Transcript {
  import opened Base

  const MAX_TAIL: nat := 256 * 1024
  const NEWLINE: byte := 10

  datatype Failure = NoFailure | Overloaded | OtherFailure
  /** A decoded line; everything that is neither the start nor the completion of a task is `Irrelevant`. */
  datatype Event = Started(turn: Option<Text>) | Completed(turn: Option<Text>, failure: Failure) | Irrelevant
  datatype TerminalOutcome = Pending | Capacity | OtherError | Success

  /** None where a line is not valid JSON. */
  type Decoder = Text -> Option<Event>

  datatype Reading = Reading(outcome: TerminalOutcome, newerTurn: bool)

  const INITIAL: Reading := Reading(Pending, false)

  function Judge(f: Failure): TerminalOutcome {
    match f
    case Overloaded => TerminalOutcome.Capacity
    case OtherFailure => OtherError
    case NoFailure => Success
  }

  function Step(s: Reading, e: Event, turn: Text): Reading {
    match e
    case Started(t) => Reading(Pending, t != Some(turn))
    case Completed(t, failure) => if !s.newerTurn && t == Some(turn) then s.(outcome := Judge(failure)) else s
    case Irrelevant => s
  }

  /** The whole-file meaning: every complete line in order; None as soon as one does not decode. */
  function Fold(decode: Decoder, lines: seq<Text>, turn: Text, s: Reading): Option<Reading> {
    if lines == [] then Some(s)
    else match decode(lines[0])
         case None => None
         case Some(e) => Fold(decode, lines[1..], turn, Step(s, e, turn))
  }

  // ---------------------------------------------------------------- lines

  /** One past the first newline, or 0 when there is none. */
  function LineEnd(data: Text): (n: nat)
    ensures n <= |data|
    ensures n > 0 ==> data[n - 1] == NEWLINE && forall i :: 0 <= i < n - 1 ==> data[i] != NEWLINE
    ensures n == 0 ==> forall i :: 0 <= i < |data| ==> data[i] != NEWLINE
  {
    if data == [] then 0
    else if data[0] == NEWLINE then 1
    else
      var n := LineEnd(data[1..]);
      assert forall i :: 0 < i < |data| ==> data[i] == data[1..][i - 1];
      if n == 0 then 0 else n + 1
  }

  /** The lines that end in a newline; an unfinished last line is not one of them. */
  function CompleteLines(data: Text): seq<Text>
    decreases |data|
  {
    var n := LineEnd(data);
    if n == 0 then [] else [data[..n]] + CompleteLines(data[n..])
  }

  predicate LineStart(file: Text, i: nat) {
    i <= |file| && (i == 0 || file[i - 1] == NEWLINE)
  }

  lemma FirstLineOf(data: Text, n: nat)
    requires 0 < n <= |data| && data[n - 1] == NEWLINE && forall i :: 0 <= i < n - 1 ==> data[i] != NEWLINE
    ensures LineEnd(data) == n
  {
  }

  lemma FirstLine(data: Text, n: nat)
    requires 0 < n <= |data| && data[n - 1] == NEWLINE && forall i :: 0 <= i < n - 1 ==> data[i] != NEWLINE
    ensures CompleteLines(data) == [data[..n]] + CompleteLines(data[n..])
  {
    FirstLineOf(data, n);
  }

  /** The first line of a file is that of every part of it that holds the line. */
  lemma CutFirstLine(file: Text, i: nat, n: nat)
    requires 0 < n <= i <= |file| && file[n - 1] == NEWLINE && forall k :: 0 <= k < n - 1 ==> file[k] != NEWLINE
    ensures CompleteLines(file[..i]) == [file[..n]] + CompleteLines(file[n..][..i - n])
    ensures file[n..][i - n..] == file[i..]
  {
    hide CompleteLines;
    FirstLine(file[..i], n);
    assert file[..i][n..] == file[n..][..i - n] && file[..i][..n] == file[..n];
  }

  lemma Associate(a: seq<Text>, b: seq<Text>, c: seq<Text>)
    ensures a + (b + c) == (a + b) + c
  {
  }

  /** Cutting a file where a line starts cuts its list of lines. */
  lemma {:induction false} LinesSplit(file: Text, i: nat)
    requires LineStart(file, i)
    ensures CompleteLines(file) == CompleteLines(file[..i]) + CompleteLines(file[i..])
    decreases |file|
  {
    if i == 0 {
      assert file[0..] == file && file[..0] == [];
    } else {
      hide CompleteLines;
      var n := LineEnd(file);
      assert 0 < n <= i;
      FirstLine(file, n);
      CutFirstLine(file, i, n);
      LinesSplit(file[n..], i - n);
      Associate([file[..n]], CompleteLines(file[n..][..i - n]), CompleteLines(file[i..]));
    }
  }

  /** Bytes without a newline add no line. */
  lemma {:induction false} UnfinishedLineIsIgnored(file: Text, partial: Text)
    requires forall i :: 0 <= i < |partial| ==> partial[i] != NEWLINE
    ensures CompleteLines(file + partial) == CompleteLines(file)
    decreases |file|
  {
    var n := LineEnd(file);
    if n > 0 {
      FirstLineOf(file + partial, n);
      assert (file + partial)[n..] == file[n..] + partial && (file + partial)[..n] == file[..n];
      UnfinishedLineIsIgnored(file[n..], partial);
    } else {
      assert forall i :: 0 <= i < |file + partial| ==> (file + partial)[i] != NEWLINE;
    }
  }

  // ---------------------------------------------------------------- the fold and a cut

  lemma {:induction false} FoldSplits(decode: Decoder, a: seq<Text>, b: seq<Text>, turn: Text, s: Reading)
    ensures var first := Fold(decode, a, turn, s);
      Fold(decode, a + b, turn, s) == if first.None? then None else Fold(decode, b, turn, first.value)
  {
    if a == [] {
      assert a + b == b;
    } else {
      assert (a + b)[0] == a[0] && (a + b)[1..] == a[1..] + b;
      if decode(a[0]).Some? {
        FoldSplits(decode, a[1..], b, turn, Step(s, decode(a[0]).value, turn));
      }
    }
  }

  predicate Mentions(decode: Decoder, lines: seq<Text>) {
    exists i :: 0 <= i < |lines| && decode(lines[i]).Some? && decode(lines[i]).value.Started?
  }

  /** A task start forgets everything read before it. */
  lemma {:induction false} StartForgets(decode: Decoder, lines: seq<Text>, turn: Text, s: Reading, t: Reading)
    requires Mentions(decode, lines)
    ensures Fold(decode, lines, turn, s) == Fold(decode, lines, turn, t)
  {
    if decode(lines[0]).Some? {
      var e := decode(lines[0]).value;
      if !e.Started? {
        var i :| 0 <= i < |lines| && decode(lines[i]).Some? && decode(lines[i]).value.Started?;
        assert lines[1..][i - 1] == lines[i];
        StartForgets(decode, lines[1..], turn, Step(s, e, turn), Step(t, e, turn));
      }
    }
  }

  // ---------------------------------------------------------------- the fold read backwards

  /** The nearest task start, if there is one, is that of the turn. */
  predicate InTurn(events: seq<Event>, turn: Text) {
    events == []
    || var last := events[|events| - 1];
       if last.Started? then last.turn == Some(turn) else InTurn(events[..|events| - 1], turn)
  }

  /** The last completion of the turn after the nearest task start decides. */
  function LastWord(events: seq<Event>, turn: Text): TerminalOutcome {
    if events == [] then Pending else
    var last, rest := events[|events| - 1], events[..|events| - 1];
    match last
    case Started(_) => Pending
    case Completed(t, failure) => if t == Some(turn) && InTurn(rest, turn) then Judge(failure) else LastWord(rest, turn)
    case Irrelevant => LastWord(rest, turn)
  }

  function Events(decode: Decoder, lines: seq<Text>): Option<seq<Event>> {
    if lines == [] then Some([])
    else
      var rest := Events(decode, lines[..|lines| - 1]);
      var last := decode(lines[|lines| - 1]);
      if rest.None? || last.None? then None else Some(rest.value + [last.value])
  }

  /** The forward fold with its two variables computes exactly the backward reading. */
  lemma {:induction false} FoldIsLastWord(decode: Decoder, lines: seq<Text>, turn: Text)
    ensures var events := Events(decode, lines);
      Fold(decode, lines, turn, INITIAL) ==
      if events.None? then None else Some(Reading(LastWord(events.value, turn), !InTurn(events.value, turn)))
  {
    if lines != [] {
      var front, last := lines[..|lines| - 1], lines[|lines| - 1];
      FoldIsLastWord(decode, front, turn);
      FoldSplits(decode, front, [last], turn, INITIAL);
      assert lines == front + [last];
      var events := Events(decode, lines);
      if events.Some? {
        assert events.value[..|events.value| - 1] == Events(decode, front).value;
      }
    }
  }

  // ---------------------------------------------------------------- what the last word is, outcome by outcome

  /** From position k on, nothing starts and nothing completes the turn. */
  ghost predicate QuietFrom(events: seq<Event>, turn: Text, k: nat) {
    forall i :: k <= i < |events| ==> !events[i].Started? && !(events[i].Completed? && events[i].turn == Some(turn))
  }

  lemma {:induction false} QuietChangesNothing(events: seq<Event>, turn: Text, k: nat)
    requires k <= |events| && QuietFrom(events, turn, k)
    ensures LastWord(events, turn) == LastWord(events[..k], turn) && InTurn(events, turn) == InTurn(events[..k], turn)
  {
    if k < |events| {
      var front := events[..|events| - 1];
      QuietChangesNothing(front, turn, k);
      assert front[..k] == events[..k];
    } else {
      assert events[..k] == events;
    }
  }

  lemma {:induction false} NoStartIsInTurn(events: seq<Event>, turn: Text, k: nat)
    requires k <= |events| && forall i :: k <= i < |events| ==> !events[i].Started?
    ensures k == 0 ==> InTurn(events, turn)
    ensures k > 0 && events[k - 1].Started? ==> (InTurn(events, turn) <==> events[k - 1].turn == Some(turn))
  {
    if k < |events| {
      NoStartIsInTurn(events[..|events| - 1], turn, k);
    }
  }

  /**
   * The last completion of the turn, if the last start before it is that of the turn or there is none in view: an
   * overload is a capacity failure, another failure an error, no failure a success.
   */
  lemma CompletionDecides(events: seq<Event>, turn: Text, start: nat, k: nat)
    requires start <= k < |events| && events[k].Completed? && events[k].turn == Some(turn) && QuietFrom(events, turn, k + 1)
    requires forall i :: start <= i < k ==> !events[i].Started?
    requires start > 0 ==> events[start - 1].Started? && events[start - 1].turn == Some(turn)
    ensures events[k].failure == Overloaded ==> LastWord(events, turn) == TerminalOutcome.Capacity
    ensures events[k].failure == OtherFailure ==> LastWord(events, turn) == OtherError
    ensures events[k].failure == NoFailure ==> LastWord(events, turn) == Success
  {
    QuietChangesNothing(events, turn, k + 1);
    var upTo := events[..k + 1];
    assert upTo[..k] == events[..k];
    NoStartIsInTurn(events[..k], turn, start);
  }

  /** Without a completion of the turn since the last start, or since the start of another turn, the outcome is pending. */
  lemma {:induction false} StartIsPending(events: seq<Event>, turn: Text, start: nat)
    requires 0 < start <= |events| && events[start - 1].Started? && forall i :: start <= i < |events| ==> !events[i].Started?
    requires events[start - 1].turn == Some(turn) ==> QuietFrom(events, turn, start)
    ensures LastWord(events, turn) == Pending
  {
    if start < |events| {
      var front := events[..|events| - 1];
      NoStartIsInTurn(front, turn, start);
      StartIsPending(front, turn, start);
    }
  }

  /** Nothing about the turn at all is pending, too. */
  lemma NothingIsPending(events: seq<Event>, turn: Text)
    requires QuietFrom(events, turn, 0)
    ensures LastWord(events, turn) == Pending
  {
    QuietChangesNothing(events, turn, 0);
  }

  /** What a reading of these bytes answers, given what its complete lines say. */
  lemma OutcomeIsLastWord(decode: Decoder, data: Text, turn: Text)
    ensures var events := Events(decode, CompleteLines(data));
      Outcome(decode, data, turn) == if events.None? then None else Some(LastWord(events.value, turn))
  {
    FoldIsLastWord(decode, CompleteLines(data), turn);
  }

  function Outcome(decode: Decoder, data: Text, turn: Text): Option<TerminalOutcome> {
    match Fold(decode, CompleteLines(data), turn, INITIAL)
    case None => None
    case Some(s) => Some(s.outcome)
  }

  /** Reading from a line start on agrees with the whole file once a task start is in view. */
  lemma TailAgrees(decode: Decoder, file: Text, i: nat, turn: Text)
    requires LineStart(file, i) && Mentions(decode, CompleteLines(file[i..]))
    requires Outcome(decode, file, turn).Some?
    ensures Outcome(decode, file[i..], turn) == Outcome(decode, file, turn)
  {
    var a, b := CompleteLines(file[..i]), CompleteLines(file[i..]);
    LinesSplit(file, i);
    FoldSplits(decode, a, b, turn, INITIAL);
    var first := Fold(decode, a, turn, INITIAL);
    StartForgets(decode, b, turn, INITIAL, first.value);
  }

  // ---------------------------------------------------------------- the reader

  /** Where the bounded window starts: at the first line that begins at or after the cut. */
  ghost predicate WindowStart(file: Text, cut: nat, start: nat) {
    && cut <= start <= |file|
    && (LineStart(file, start) || start == |file|)
    && forall i :: cut <= i < start ==> !LineStart(file, i)
  }

  function Cut(file: Text): nat {
    if |file| <= MAX_TAIL then 0 else |file| - MAX_TAIL
  }

  /** Some line of the window reports the start of a task. */
  ghost predicate StartInView(decode: Decoder, file: Text, cut: nat) {
    exists start: nat :: WindowStart(file, cut, start) && Mentions(decode, CompleteLines(file[start..]))
  }

  method ParseTerminal(decode: Decoder, data: Text, turn: Text) returns (r: Option<TerminalOutcome>)
    ensures r == Outcome(decode, data, turn)
  {
    var s := INITIAL;
    var rest := data;
    while true
      invariant Fold(decode, CompleteLines(data), turn, INITIAL) == Fold(decode, CompleteLines(rest), turn, s)
      decreases |rest|
    {
      var n := LineEnd(rest);
      if n == 0 {
        return Some(s.outcome);
      }
      assert CompleteLines(rest)[0] == rest[..n] && CompleteLines(rest)[1..] == CompleteLines(rest[n..]);
      var event := decode(rest[..n]);
      if event.None? {
        return None;
      }
      s := Step(s, event.value, turn);
      rest := rest[n..];
    }
  }

  /** The bytes from one before the cut on are read; the window is aligned inside them. */
  method AlignWindow(file: Text, cut: nat) returns (window: Text, start: nat)
    requires cut <= |file|
    ensures WindowStart(file, cut, start) && window == file[start..]
  {
    var from := if cut == 0 then 0 else cut - 1;
    var data := file[from..];
    var skip: nat;
    if cut == 0 {
      skip := 0;
    } else if data != [] && data[0] == NEWLINE {
      skip := 1;
    } else {
      var n := LineEnd(data);
      skip := if n == 0 then |data| else n;
    }
    start := from + skip;
    forall i | cut <= i < start
      ensures !LineStart(file, i)
    {
      assert file[i - 1] == data[i - 1 - from];
    }
    assert start < |file| && start > 0 ==> file[start - 1] == data[skip - 1];
    window := data[skip..];
  }

  /** A shrunken file is refused; otherwise the watermark moves and the aligned tail is judged. */
  method ReadTerminal(decode: Decoder, file: Text, turn: Text, size: nat) returns (r: Option<TerminalOutcome>, newSize: nat)
    ensures |file| < size ==> r == None && newSize == size
    ensures |file| >= size ==> newSize == |file|
    ensures |file| >= size && |file| <= 262_144 ==> r == Outcome(decode, file, turn)
    ensures |file| >= size && Outcome(decode, file, turn).Some? && StartInView(decode, file, if |file| <= 262_144 then 0 else |file| - 262_144) ==>
              r == Outcome(decode, file, turn)
  {
    if |file| < size {
      return None, size;
    }
    newSize := |file|;
    var cut := Cut(file);
    var window, start := AlignWindow(file, cut);
    r := ParseTerminal(decode, window, turn);
    if Outcome(decode, file, turn).Some? && StartInView(decode, file, cut) {
      ghost var other: nat :| WindowStart(file, cut, other) && Mentions(decode, CompleteLines(file[other..]));
      WindowIsUnique(file, cut, start, other);
      AlignedWhenMentioned(decode, file, start);
      TailAgrees(decode, file, start, turn);
    }
    if cut == 0 {
      assert LineStart(file, 0) && start == 0 && file[0..] == file;
    }
  }

  lemma WindowIsUnique(file: Text, cut: nat, a: nat, b: nat)
    requires WindowStart(file, cut, a) && WindowStart(file, cut, b)
    ensures a == b
  {
  }

  lemma AlignedWhenMentioned(decode: Decoder, file: Text, start: nat)
    requires start <= |file| && (LineStart(file, start) || start == |file|) && Mentions(decode, CompleteLines(file[start..]))
    ensures LineStart(file, start)
  {
  }
}
