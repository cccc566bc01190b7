/** The interactive prompt of `termboxQuery`: a rune buffer seeded with the
    marker '#', edited by key events until Enter or Esc, and the check that
    rejects degenerate queries. Rendering to the terminal is not modelled. */
module QueryEditor {

  const Marker: char := '#'

  /** The keys the prompt distinguishes. KeyBackspace and KeyBackspace2 are one
      case; every other key carries its rune, '\0' for keys that carry none
      (arrows, function keys). */
  datatype Key = Esc | Space | Enter | Backspace | Other(ch: char)

  /** What PollEvent reports: a key, an input error, or another kind of event
      (resize, mouse) that the prompt ignores. */
  datatype Event = KeyPress(key: Key) | InputError | NonKey

  /** The state of one prompt session. */
  datatype Editor =
    | Editing(buffer: seq<char>)
    | Finished(query: string)   // Enter: the buffer becomes the query
    | Aborted                   // Esc: the query stays ""
    | Panicked                  // input error: the program panics
  {
    predicate Done() {
      !Editing?
    }
  }

  /** Every session starts with a buffer holding just the marker. */
  const Start: Editor := Editing([Marker])

  /** One event's effect on the session. */
  function Step(s: Editor, ev: Event): (t: Editor)
    ensures s.Done() ==> t == s
    ensures s.Editing? && ev == KeyPress(Enter) ==> t == Finished(s.buffer)
    ensures s.Editing? && ev == KeyPress(Esc) ==> t == Aborted
    ensures s.Editing? && ev == InputError ==> t == Panicked
    ensures s.Editing? && t.Panicked? ==> ev == InputError
    ensures s.Editing? && ev !in {KeyPress(Enter), KeyPress(Esc), InputError} ==> t.Editing?
    // an edit only ever adds or removes one rune at the end of the buffer
    ensures t.Editing? ==>
              s.Editing? &&
              (t.buffer == s.buffer ||
               (|t.buffer| == |s.buffer| + 1 && t.buffer[..|s.buffer|] == s.buffer) ||
               (|s.buffer| == |t.buffer| + 1 && s.buffer[..|t.buffer|] == t.buffer))
  {
    match s
    case Editing(buf) =>
      (match ev
       case KeyPress(k) =>
         (match k
          case Esc => Aborted
          case Space => Editing(buf + [' '])
          case Enter => Finished(buf)
          case Backspace => if |buf| > 0 then Editing(buf[..|buf| - 1]) else s
          case Other(ch) => if ch != '\0' then Editing(buf + [ch]) else s)
       case InputError => Panicked
       case NonKey => s)
    case _ => s
  }

  /** The session after a sequence of events; events after the session ended
      change nothing. */
  function Session(s: Editor, evs: seq<Event>): (r: Editor)
    // a prompt still editing has seen no Enter, Esc or input error, and each
    // event added at most one rune
    ensures r.Editing? ==> s.Editing? && |r.buffer| <= |s.buffer| + |evs|
    ensures r.Editing? ==>
      forall i | 0 <= i < |evs| :: evs[i] != KeyPress(Enter) && evs[i] != KeyPress(Esc) && evs[i] != InputError
    decreases |evs|
  {
    if evs == [] then s else Session(Step(s, evs[0]), evs[1..])
  }

  /** What `termboxQuery` yields: the query string ("" after Esc), a panic, or,
      when the events run out first, a prompt still waiting on PollEvent. */
  datatype Capture = Returned(query: string) | Crashed | Waiting(buffer: seq<char>)

  function Outcome(e: Editor): Capture {
    match e
    case Finished(q) => Returned(q)
    case Aborted => Returned("")
    case Panicked => Crashed
    case Editing(b) => Waiting(b)
  }

  /** The check made on a captured query, in `termboxQuery` and twice in `main`. */
  predicate IsInvalidQuery(q: string)
    // only queries of at most two runes, each a marker or a space, are refused
    ensures IsInvalidQuery(q) ==> |q| <= 2 && forall i | 0 <= i < |q| :: q[i] == Marker || q[i] == ' '
    ensures q == [] ==> IsInvalidQuery(q)
  {
    q == "" || q == "#" || q == " " || q == "# "
  }

  // ---------------------------------------------------------------------------
  // How sessions compose

  lemma {:induction false} SessionDone(s: Editor, evs: seq<Event>)
    requires s.Done()
    ensures Session(s, evs) == s
    decreases |evs|
  {
    if evs != [] {
      SessionDone(Step(s, evs[0]), evs[1..]);
    }
  }

  lemma {:induction false} SessionAppend(s: Editor, a: seq<Event>, b: seq<Event>)
    ensures Session(s, a + b) == Session(Session(s, a), b)
    decreases |a|
  {
    if a == [] {
      assert a + b == b;
    } else {
      assert (a + b)[0] == a[0];
      assert (a + b)[1..] == a[1..] + b;
      SessionAppend(Step(s, a[0]), a[1..], b);
    }
  }

  lemma SessionSnoc(s: Editor, evs: seq<Event>, ev: Event)
    ensures Session(s, evs + [ev]) == Step(Session(s, evs), ev)
  {
    SessionAppend(s, evs, [ev]);
  }

  lemma SessionCons(s: Editor, evs: seq<Event>, i: nat)
    requires 0 < i <= |evs|
    ensures Session(s, evs[..i]) == Session(Step(s, evs[0]), evs[1..][..i - 1])
  {
    assert evs[..i][1..] == evs[1..][..i - 1];
  }

  /** The number of events a session takes: up to and including the one that
      ends it, or all of them. */
  function Consumed(s: Editor, evs: seq<Event>): (n: nat)
    ensures n <= |evs|
    ensures forall i | 0 <= i < n :: Session(s, evs[..i]).Editing?
    ensures n == |evs| || Session(s, evs[..n]).Done()
    ensures Session(s, evs[..n]) == Session(s, evs)
    decreases |evs|
  {
    if evs == [] then 0
    else if s.Done() then
      SessionDone(s, evs);
      0
    else
      var m := Consumed(Step(s, evs[0]), evs[1..]);
      assert forall i | 0 < i <= m + 1 ::
          Session(s, evs[..i]) == Session(Step(s, evs[0]), evs[1..][..i - 1]) by {
        forall i | 0 < i <= m + 1 {
          SessionCons(s, evs, i);
        }
      }
      m + 1
  }

  lemma ConsumedUnique(s: Editor, evs: seq<Event>, n: nat)
    requires n <= |evs|
    requires forall i | 0 <= i < n :: Session(s, evs[..i]).Editing?
    requires n == |evs| || Session(s, evs[..n]).Done()
    ensures n == Consumed(s, evs)
  {
  }

  // ---------------------------------------------------------------------------
  // The prompt loop

  /** The event loop of `termboxQuery`, run on the given keyboard events. It
      also says how many events it took, so that a second prompt can go on
      from there. */
  method TermboxQuery(events: seq<Event>) returns (capture: Capture, used: nat)
    ensures used == Consumed(Start, events)
    ensures capture == Outcome(Session(Start, events))
    ensures capture.Returned? ==>
              used > 0 && events[used - 1] in {KeyPress(Enter), KeyPress(Esc)}
  {
    var query := "";
    var stringSlices := [Marker];
    used := 0;
    label queryloop:
    while true
      invariant used <= |events|
      invariant Session(Start, events[..used]) == Editing(stringSlices)
      invariant forall i | 0 <= i <= used :: Session(Start, events[..i]).Editing?
      decreases |events| - used
    {
      if used == |events| {
        // PollEvent would block: the prompt is still waiting
        ConsumedUnique(Start, events, used);
        assert events[..used] == events;
        capture := Waiting(stringSlices);
        return;
      }
      var ev := events[used];
      SessionSnoc(Start, events[..used], ev);
      assert events[..used + 1] == events[..used] + [ev];
      used := used + 1;
      match ev
      case KeyPress(k) =>
        match k {
        case Esc =>
          break queryloop;
        case Space =>
          stringSlices := stringSlices + [' '];
        case Enter =>
          query := stringSlices;
          break queryloop;
        case Backspace =>
          if |stringSlices| > 0 {
            stringSlices := stringSlices[..|stringSlices| - 1];
          }
        case Other(ch) =>
          if ch != '\0' {
            stringSlices := stringSlices + [ch];
          }
        }
      case InputError =>
        ConsumedUnique(Start, events, used);
        SessionAppend(Start, events[..used], events[used..]);
        SessionDone(Panicked, events[used..]);
        assert events[..used] + events[used..] == events;
        capture := Crashed;
        return;
      case NonKey =>
    }
    ConsumedUnique(Start, events, used);
    SessionAppend(Start, events[..used], events[used..]);
    SessionDone(Session(Start, events[..used]), events[used..]);
    assert events[..used] + events[used..] == events;
    capture := Returned(query);
  }

  // ---------------------------------------------------------------------------
  // What a session produces

  /** An event that neither ends the session nor erases anything. */
  predicate Plain(ev: Event) {
    ev == NonKey || ev == KeyPress(Space) || (ev.KeyPress? && ev.key.Other?)
  }

  /** Every event of the sequence is plain. */
  predicate AllPlain(evs: seq<Event>) {
    evs == [] || (Plain(evs[0]) && AllPlain(evs[1..]))
  }

  /** The text one plain event types: a space for Space, the rune of any other
      key that carries one, nothing otherwise. */
  function Typed(ev: Event): string
    requires Plain(ev)
  {
    match ev
    case KeyPress(Space) => " "
    case KeyPress(Other(ch)) => if ch != '\0' then [ch] else ""
    case _ => ""
  }

  /** The text a sequence of plain events types. */
  function TypedText(evs: seq<Event>): string
    requires AllPlain(evs)
  {
    if evs == [] then "" else Typed(evs[0]) + TypedText(evs[1..])
  }

  lemma StepPlain(buffer: seq<char>, ev: Event)
    requires Plain(ev)
    ensures Step(Editing(buffer), ev) == Editing(buffer + Typed(ev))
  {
  }

  /** Typing without erasing appends exactly the typed text. */
  lemma {:induction false} PlainTyping(buffer: seq<char>, evs: seq<Event>)
    requires AllPlain(evs)
    ensures Session(Editing(buffer), evs) == Editing(buffer + TypedText(evs))
    decreases |evs|
  {
    if evs != [] {
      var typed, rest := Typed(evs[0]), TypedText(evs[1..]);
      StepPlain(buffer, evs[0]);
      PlainTyping(buffer + typed, evs[1..]);
      assert (buffer + typed) + rest == buffer + (typed + rest);
    }
  }

  /** A query finished with Enter before any Backspace is the marker followed
      by exactly what was typed, and the validity check rejects it exactly when
      nothing, or a single space, was typed. */
  lemma MarkedQuery(evs: seq<Event>, rest: seq<Event>)
    requires AllPlain(evs)
    ensures Outcome(Session(Start, evs + [KeyPress(Enter)] + rest)) ==
      Returned([Marker] + TypedText(evs))
    ensures IsInvalidQuery([Marker] + TypedText(evs)) <==>
      TypedText(evs) == "" || TypedText(evs) == " "
  {
    PlainTyping([Marker], evs);
    SessionAppend(Start, evs + [KeyPress(Enter)], rest);
    SessionSnoc(Start, evs, KeyPress(Enter));
    SessionDone(Finished([Marker] + TypedText(evs)), rest);
    var t := TypedText(evs);
    if |t| >= 2 {
      assert |[Marker] + t| >= 3;
    } else if |t| == 1 && t != " " {
      assert ([Marker] + t)[1] != ' ';
    }
  }

  /** Esc discards whatever was typed: the prompt yields "", which the check
      rejects, and later events are not looked at. */
  lemma EscapeDiscards(buffer: seq<char>, rest: seq<Event>)
    ensures Outcome(Session(Editing(buffer), [KeyPress(Esc)] + rest)) == Returned("")
    ensures IsInvalidQuery(Outcome(Session(Editing(buffer), [KeyPress(Esc)] + rest)).query)
  {
    SessionAppend(Editing(buffer), [KeyPress(Esc)], rest);
    SessionDone(Aborted, rest);
  }

  /** Space appends exactly one space; any other key appends its rune when the
      rune is not zero and otherwise leaves the buffer as it is; events that
      are not keys change nothing. */
  lemma KeysAppend(buffer: seq<char>, ch: char)
    ensures Step(Editing(buffer), KeyPress(Space)) == Editing(buffer + [' '])
    ensures ch != '\0' ==> Step(Editing(buffer), KeyPress(Other(ch))) == Editing(buffer + [ch])
    ensures ch == '\0' ==> Step(Editing(buffer), KeyPress(Other(ch))) == Editing(buffer)
    ensures Step(Editing(buffer), NonKey) == Editing(buffer)
  {
  }

  /** Backspace undoes a key that typed a rune. */
  lemma BackspaceUndoesTyping(buffer: seq<char>, k: Key)
    requires k == Space || (k.Other? && k.ch != '\0')
    ensures Step(Step(Editing(buffer), KeyPress(k)), KeyPress(Backspace)) == Editing(buffer)
  {
    var typed := Step(Editing(buffer), KeyPress(k)).buffer;
    assert typed[..|typed| - 1] == buffer;
  }

  /** Backspace removes the last rune and keeps the others in order; on an
      empty buffer it does nothing. */
  lemma BackspaceDropsLast(buffer: seq<char>)
    ensures |buffer| > 0 ==>
      Step(Editing(buffer), KeyPress(Backspace)).buffer + [buffer[|buffer| - 1]] == buffer
    ensures |buffer| == 0 ==> Step(Editing(buffer), KeyPress(Backspace)) == Editing(buffer)
  {
  }

  /** The marker itself can be erased: Backspace, 'a', Enter yields the query
      "a", which has no marker and which the check accepts. */
  lemma MarkerCanBeErased()
    ensures Session(Start, [KeyPress(Backspace)]) == Editing([])
    ensures Outcome(Session(Start, [KeyPress(Backspace), KeyPress(Other('a')), KeyPress(Enter)])) ==
      Returned("a")
    ensures !IsInvalidQuery("a") && "a"[0] != Marker
  {
  }
}
