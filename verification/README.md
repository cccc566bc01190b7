# Analyst, modelled in Dafny

Analyst is a small Go command-line program (`Analyst/src/analyst.go`). It
asks the user, in a terminal prompt, for two search terms: a query and a term
to compare it with. It then opens one filtered tweet stream for each term and
reads the two streams in lockstep. Each delivered tweet is printed and stored
in a MongoDB collection (`QueryTweets` or `CompareTweets`). A stream is
closed after its 25th tweet, and any failure ends the run.

This project models that core:

- `wrappers.dfy` (module `Wrappers`) defines `Option`.
- `tweets.dfy` (module `Tweets`) holds the tweet fields the program uses and
  the document stored for each tweet. It also has the printed permalink,
  with its decimal id and a parser that reads the permalink back.
- `query_editor.dfy` (module `QueryEditor`) models `termboxQuery`:
  - the rune buffer seeded with the marker `#`;
  - one key event's effect, as the pure function `Step`;
  - the event loop, as the method `TermboxQuery` proved against the fold
    `Session`;
  - the check that rejects `""`, `"#"`, `" "` and `"# "`.
- `streams.dfy` (module `Streams`) holds the two collaborators the loop
  drives. Each is a class whose fields change in place:
  - `Stream` is a stream handle. It has a cursor into the deliveries its
    feed will make, a sticky error and a closed flag.
  - `Collection` is a store collection that only grows, and whose failing
    insert, if any, is fixed when it is created.
- `ingest.dfy` (module `Ingest`) models the lockstep loop of `main`.
  - `Iteration` is the loop body, step for step in the order of the source.
  - `Lockstep` is the loop. Its `ensures` ties the final counters, cursors
    and stored documents to pure functions of a `Script`. A `Script` holds
    what the feeds deliver and which insert fails.
  - Lemmas about those functions state what every run does.
- `analyst.dfy` (module `Analyst`) models the flow of `main`:
  - two prompts over one shared sequence of key events;
  - the early returns, each tied to the condition that causes it;
  - the configuration, store and stream set-up, described by an
    `Environment` value;
  - the loop.

A `log.Fatal` or `panic` becomes a result value (`Stop`, `Exit`), not a
process exit. A read that would block forever is also a result: a prompt
that has run out of key events is `Waiting`, and a feed that has run out of
deliveries gives `Stalled`.

Two details of the code decide which queries are possible and which are
searched for:

- Backspace deletes the last rune whenever the buffer is not empty (the
  guard on line 83). On a buffer that holds only the marker, it deletes the
  marker, so a query can be finished without a leading `#`
  (`MarkerCanBeErased`).
- The validity check compares the query with exactly four literals: `""`,
  `"#"`, `" "` and `"# "` (lines 102, 117 and 124). Any other query is
  searched for, including blank ones such as `"#  "`.

## Model

| member | source | states |
|---|---|---|
| QueryEditor.Step | Analyst/src/analyst.go:65-101 | A finished, aborted or panicked session ignores further events. Enter finishes with exactly the current buffer. Esc aborts. An input error, and only an input error, panics. Any other event leaves the session editing and changes the buffer by at most one rune at its end. |
| QueryEditor.Session | Analyst/src/analyst.go:65-101 | The prompt loop as a fold of `Step` over the events. A prompt that is still editing started out editing and has seen no Enter, Esc or input error. Its buffer grew by at most one rune per event. |
| QueryEditor.IsInvalidQuery | Analyst/src/analyst.go:102 | The check that `termboxQuery` makes at line 102 and `main` repeats at lines 117 and 124. It refuses the empty query, and refuses nothing longer than two runes or holding a rune other than `#` and space. |
| QueryEditor.TermboxQuery | Analyst/src/analyst.go:57-111 | The prompt loop yields the outcome of the fold `Session` from the buffer `['#']` over the events it is given. Esc yields "", Enter the buffer, an input error a crash, and running out of events a prompt still waiting. The number of events it took is `Consumed`. When it returns a query, the last event taken was Enter or Esc. |
| QueryEditor.Consumed | Analyst/src/analyst.go:65-101 | The events one prompt takes: every shorter prefix leaves it editing, and it ends the session or uses up all events. The events after it change nothing. |
| QueryEditor.ConsumedUnique | Analyst/src/analyst.go:65-101 | Any count with the properties of `Consumed` is `Consumed`, so the point where a prompt stops is well defined. |
| QueryEditor.SessionDone | Analyst/src/analyst.go:69-71 | After Esc, Enter or an input error, later events change nothing (`break queryloop`, `panic`). |
| QueryEditor.SessionAppend | Analyst/src/analyst.go:65-101 | Running a prompt over `a + b` is running it over `a` and then over `b`. |
| QueryEditor.KeysAppend | Analyst/src/analyst.go:72-75 | Space appends exactly one `' '`. Any other key appends its rune when that rune is not zero and otherwise leaves the buffer unchanged. Non-key events change nothing. |
| QueryEditor.PlainTyping | Analyst/src/analyst.go:89-95 | A run of events with no Esc, Enter, Backspace or input error appends exactly the typed text to the buffer. |
| QueryEditor.MarkedQuery | Analyst/src/analyst.go:63-64 | A query finished with Enter before any Backspace is `#` followed by exactly the typed text, whatever events follow. The check rejects it exactly when nothing, or a single space, was typed. |
| QueryEditor.EscapeDiscards | Analyst/src/analyst.go:69-71 | Esc yields "" whatever was typed and whatever follows, and the validity check rejects "" (line 102). |
| QueryEditor.BackspaceDropsLast | Analyst/src/analyst.go:80-88 | Backspace on a non-empty buffer removes exactly its last rune and keeps the others in order. On an empty buffer it changes nothing. |
| QueryEditor.BackspaceUndoesTyping | Analyst/src/analyst.go:80-88 | Backspace right after a key that typed a rune restores the buffer from before that key. |
| QueryEditor.MarkerCanBeErased | Analyst/src/analyst.go:83 | The `len > 0` guard lets Backspace delete the marker itself. The keys Backspace, 'a', Enter yield the query "a", which has no marker and which the check accepts. |
| Tweets.RecordOf | Analyst/src/analyst.go:206-211 | The stored document keeps screen name, text, id and parsed creation time. Reading it back gives the tweet it was built from. |
| Tweets.DecimalString | Analyst/src/analyst.go:180 | An int64 id as `fmt.Print` writes it. The text is non-empty and starts with `-` exactly when the id is negative. The rest is all digits. |
| Tweets.NatDigits | Analyst/src/analyst.go:180 | The decimal digits of an id are non-empty, are all digits and have no leading zero. |
| Tweets.DecimalRoundTrip | Analyst/src/analyst.go:180 | The decimal rendering of every integer, negative ones included, reads back as that integer. |
| Tweets.Permalink | Analyst/src/analyst.go:180 | The printed URL starts with `https://twitter.com/` and is longer than its host, screen name and `/status/` together. |
| Tweets.PermalinkRoundTrip | Analyst/src/analyst.go:180 | A permalink built from a screen name without '/' parses back to exactly that screen name and id. |
| Tweets.PermalinkInjective | Analyst/src/analyst.go:194 | Tweets with different screen names or ids get different permalinks, whatever runes the screen names hold. |
| Streams.Stream.Open | Analyst/src/analyst.go:144-152 | A stream that `twitterstream.Open` opened for a track term: it holds that term and the feed the endpoint gives it, has read nothing, has no error and is not closed. |
| Streams.Stream.UnmarshalNext | Analyst/src/analyst.go:172-177 | A stream that already has an error yields it again without reading. A read on a closed stream fails and consumes no delivery. Otherwise it reads the next delivery: a tweet is returned, and a failed delivery becomes the stream's permanent error. An exhausted feed blocks. |
| Streams.Stream.Close | Analyst/src/analyst.go:189-191 | Closing marks the stream closed and leaves its cursor alone. It sets the error only when the stream library's `closeSetsErr` says so and no error was there before. |
| Streams.Collection.constructor | Analyst/src/analyst.go:165-166 | The collection `DB("test").C(name)`: it holds its name, the documents already in it and its failing insert, and no insert has been made. |
| Streams.Collection.Insert | Analyst/src/analyst.go:212-215 | Each insert is counted. It fails exactly when it is the collection's failing insert, and it appends the document exactly when it succeeds. |
| Ingest.Completed | Analyst/src/analyst.go:168 | The number of iterations that go through is the index of the first failing one, or 25. |
| Ingest.CompletedExactly | Analyst/src/analyst.go:168 | An iteration count with clean iterations before it, and a failure or the cap at it, is `Completed`. |
| Ingest.QueryStored | Analyst/src/analyst.go:206-215 | Every delivery whose document was stored in `QueryTweets` is a tweet whose time parsed. |
| Ingest.Archive | Analyst/src/analyst.go:206-225 | The documents for the first n deliveries of a feed: exactly n of them. |
| Ingest.ArchiveAt | Analyst/src/analyst.go:206-221 | Document i is the one built from delivery i, so documents are stored in delivery order. |
| Ingest.Iteration | Analyst/src/analyst.go:169-225 | One loop body reads one query item before one compare item, parses both times, and counts each stream. A stream is closed exactly when its counter reaches 25. It then inserts the query document before the compare document. It fails exactly when the iteration is not clean, at the first failing step in source order, and the steps before that step have taken effect. |
| Ingest.FailsIn | Analyst/src/analyst.go:172-225 | A run whose first failure is in iteration k ends with that failure. The reads, counters and stored documents are k plus the steps of iteration k that took effect. |
| Ingest.Round | Analyst/src/analyst.go:168-225 | A clean iteration moves the loop's state from k iterations to k + 1. A failed one leaves the final state the script predicts. |
| Ingest.Lockstep | Analyst/src/analyst.go:165-226 | The loop ends with the stop reason, counters and stream cursors given by the script. Each collection is its old documents plus one document per stored delivery, in order. A stream is closed exactly when its counter is 25. This holds whether or not closing a stream sets its error. |
| Ingest.Balanced | Analyst/src/analyst.go:172-225 | The query side is never behind the compare side and at most one step ahead, in reads, counters and stored documents. Stored ≤ counted ≤ read ≤ 25. The two collections grow by equally many documents unless the compare insert failed. |
| Ingest.CleanRunIsCapped | Analyst/src/analyst.go:188-205 | When the first 25 iterations are clean, there are 25 reads, counts and documents on each side. If closing sets the error, the loop condition stops the loop. Otherwise a 26th iteration starts and its read on the closed query stream fails. |
| Ingest.CompareFailureStopsQuery | Analyst/src/analyst.go:175-177 | A failed compare read ends the run. The query item read in that iteration is neither counted nor stored. |
| Ingest.StoredInOrder | Analyst/src/analyst.go:206-215 | Stored query document i holds every field of the i-th delivered tweet. |
| Analyst.OpenAndIngest | Analyst/src/analyst.go:129-226 | After both prompts, the first check that fails decides the exit. Bad flags give a usage exit, an unreadable configuration a configuration error, an unreachable store a dial panic. A refused query stream comes before a refused compare stream. The loop runs exactly when every check passes, and its results are the loop's on the two feeds. Each `Open` gets its own answer from the environment, by side and track term, so the same query can be refused for the compare stream alone or deliver different items to each stream. A track is listed exactly when its stream was opened. Nothing is stored unless the loop runs. |
| Analyst.Analyst | Analyst/src/analyst.go:113-226 | Every exit is tied to its condition. A failing terminal panics. An input error in a prompt panics, and a prompt that runs out of keys is still waiting. A prompt whose query the check rejects stops the program with nothing to search. The second prompt is reached only after the first query is accepted. The flag, configuration, store and stream exits follow in the order of `main`. A track is listed exactly when its stream was opened. The loop runs exactly when every check passes. Its results are the loop's, on the feeds for the two typed queries and on the environment's `closeSetsErr`. |

## Left out

- Terminal rendering and set-up (`termbox.Init/Close/SetInputMode`, `edit_box`, `redraw_all`) are not modelled. The edit box and the draw routine are defined elsewhere and are not part of this model. A failing `termbox.Init` is the `terminalReady` flag. `termboxQuery` runs `termbox.Init` again for the second prompt (line 52). The model checks `terminalReady` once, so a terminal that fails only on the second call is not modelled.
- Runes are Dafny `char`s. The terminal library's decoding of keyboard input, including invalid runes, is not modelled.
- Reading the credentials file, the JSON decoding in `readConfig`, `usage` and flag parsing (lines 19-48, 130-134) are each reduced to one flag of `Environment`.
- The network streams (`twitterstream.Open`, `UnmarshalNext`, `Err`, `Close`) are modelled as a feed: a fixed sequence of deliveries, each a decoded tweet or a failure. The environment answers each of the two `Open` calls separately, by side and track term. A read on an exhausted feed is the `Blocked` result (`Stalled` stop), not a wait.
- The stream library is not part of this model, so whether `Close` makes `Err` report an error is not known. It is the parameter `closeSetsErr`, and the loop's results are stated for both values. A read on a closed stream is taken to fail.
- The MongoDB dial and session, and the database name `test`, are reduced to a reachability flag. Each collection's failing insert, if any, is given as `faultAt`. Only the first failure matters, since it ends the run.
- `CreatedAtTime` parsing is opaque: a tweet's time is given as already parsed (`Parsed`) or unparseable.
- Console output (`fmt.Print` of user name, text, permalink and time) is not modelled. The permalink string itself is modelled (`Tweets.Permalink`), without printing it.
- The post-loop `log.Print` of `ts.Err` and `cs.Err` (lines 227-232) is not modelled. It only logs, and it compares a method value to nil.
- Process termination: `log.Fatal`, `panic`, the deferred `Close` calls and the exit status are represented only by the `Stop` and `Exit` results.
