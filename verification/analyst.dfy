/** The flow of `main`: two prompts for search terms, the checks that stop the
    program before anything is opened, the set-up of the store and the two
    filtered streams, and the lockstep loop. The terminal, the configuration
    file, the store and the streaming endpoint are described by an
    `Environment` value instead of being contacted. */
module Analyst {
  import opened Wrappers
  import opened Tweets
  import opened QueryEditor
  import opened Streams
  import opened Ingest

  /** What the streaming endpoint does when a stream is opened for a track term:
      refuse it, or deliver the given reads in order. */
  datatype Feed = Refused | Live(deliveries: seq<Read>)

  /** Everything outside the program that `main` depends on. The two
      `twitterstream.Open` calls are separate requests, so `feedFor` answers
      each by the side that makes it as well as by its track term: the same
      term may be refused for one and not the other, or deliver different
      items to each. */
  datatype Environment = Environment(
    terminalReady: bool,
    flagsValid: bool,
    configReadable: bool,
    storeReachable: bool,
    feedFor: (Side, string) -> Feed,
    closeSetsErr: bool,
    queryStore: seq<Record>,
    compareStore: seq<Record>,
    queryFault: Option<nat>,
    compareFault: Option<nat>)

  /** How `main` ends. `AwaitingKeys` is a prompt that is still waiting for a
      key; `Ingested` is the end of the lockstep loop. */
  datatype Exit =
    | TerminalPanic
    | InputPanic
    | AwaitingKeys
    | NothingToSearch
    | UsageExit
    | ConfigError
    | DialPanic
    | OpenFailed(side: Side)
    | Ingested(stop: Stop)

  /** The observable result: how the program ended, the track terms of the
      streams it opened, the two collections' documents, and the counters. */
  datatype Report = Report(
    exit: Exit,
    tracks: seq<string>,
    queryTweets: seq<Record>,
    compareTweets: seq<Record>,
    searchTweetCount: nat,
    compareTweetCount: nat)

  const QueryCollection: string := "QueryTweets"
  const CompareCollection: string := "CompareTweets"

  /** What the first prompt captures from the keyboard. */
  function FirstPrompt(keys: seq<Event>): Capture {
    Outcome(Session(Start, keys))
  }

  /** What the second prompt captures from the keys the first one left. */
  function SecondPrompt(keys: seq<Event>): Capture {
    Outcome(Session(Start, keys[Consumed(Start, keys)..]))
  }

  /** A prompt returned a query that the program searches for. */
  predicate Accepted(c: Capture) {
    c.Returned? && !IsInvalidQuery(c.query)
  }

  /** A prompt returned a query that the program refuses. */
  predicate Rejected(c: Capture) {
    c.Returned? && IsInvalidQuery(c.query)
  }

  /** Both queries are accepted, the flags, the configuration and the store
      are in order: `main` goes on to open the streams. */
  predicate Configured(keys: seq<Event>, env: Environment) {
    && env.terminalReady
    && Accepted(FirstPrompt(keys))
    && Accepted(SecondPrompt(keys))
    && env.flagsValid && env.configReadable && env.storeReachable
  }

  /** Both streams can be opened: every check before the loop passes. */
  predicate Ready(keys: seq<Event>, env: Environment) {
    && Configured(keys, env)
    && env.feedFor(Query, FirstPrompt(keys).query).Live?
    && env.feedFor(Compare, SecondPrompt(keys).query).Live?
  }

  /** The script the loop runs on once streams are open for both queries. */
  function ScriptOn(searchQuery: string, compareQuery: string, env: Environment): Script
    requires env.feedFor(Query, searchQuery).Live? && env.feedFor(Compare, compareQuery).Live?
  {
    Script(env.feedFor(Query, searchQuery).deliveries, env.feedFor(Compare, compareQuery).deliveries,
           env.queryFault, env.compareFault, env.closeSetsErr)
  }

  function ScriptFor(keys: seq<Event>, env: Environment): Script
    requires Ready(keys, env)
  {
    ScriptOn(FirstPrompt(keys).query, SecondPrompt(keys).query, env)
  }

  /** The part of `main` after both prompts: flags, configuration, store, the
      two streams and the loop. The first check that fails decides the exit. */
  method OpenAndIngest(searchQuery: string, compareQuery: string, env: Environment) returns (report: Report)
    ensures report.exit == UsageExit <==> !env.flagsValid
    ensures report.exit == ConfigError <==> env.flagsValid && !env.configReadable
    ensures report.exit == DialPanic <==> env.flagsValid && env.configReadable && !env.storeReachable
    ensures report.exit == OpenFailed(Query) <==>
      env.flagsValid && env.configReadable && env.storeReachable && env.feedFor(Query, searchQuery).Refused?
    ensures report.exit == OpenFailed(Compare) <==>
      && env.flagsValid && env.configReadable && env.storeReachable
      && env.feedFor(Query, searchQuery).Live? && env.feedFor(Compare, compareQuery).Refused?
    ensures report.exit.Ingested? <==>
      && env.flagsValid && env.configReadable && env.storeReachable
      && env.feedFor(Query, searchQuery).Live? && env.feedFor(Compare, compareQuery).Live?
    ensures report.exit.Ingested? ==>
      var s := ScriptOn(searchQuery, compareQuery, env);
      && report.exit.stop == Ending(s)
      && report.searchTweetCount == QueryCount(s)
      && report.compareTweetCount == CompareCount(s)
      && report.queryTweets == env.queryStore + Archive(s.queryFeed, QueryStored(s))
      && report.compareTweets == env.compareStore + Archive(s.compareFeed, CompareStored(s))
    ensures !report.exit.Ingested? ==>
      && report.queryTweets == env.queryStore
      && report.compareTweets == env.compareStore
      && report.searchTweetCount == report.compareTweetCount == 0
    // a track is listed exactly when its stream was opened
    ensures report.tracks <= [searchQuery, compareQuery]
    ensures |report.tracks| >= 1 <==>
      env.flagsValid && env.configReadable && env.storeReachable && env.feedFor(Query, searchQuery).Live?
    ensures |report.tracks| == 2 <==> report.exit.Ingested?
  {
    report := Report(UsageExit, [], env.queryStore, env.compareStore, 0, 0);
    if !env.flagsValid {
      return;
    }
    if !env.configReadable {
      return report.(exit := ConfigError);
    }
    if !env.storeReachable {
      return report.(exit := DialPanic);
    }
    var queryFeed := env.feedFor(Query, searchQuery);
    if queryFeed.Refused? {
      return report.(exit := OpenFailed(Query));
    }
    var ts := new Stream.Open(searchQuery, queryFeed.deliveries, env.closeSetsErr);
    report := report.(tracks := [searchQuery]);
    var compareFeed := env.feedFor(Compare, compareQuery);
    if compareFeed.Refused? {
      return report.(exit := OpenFailed(Compare));
    }
    var cs := new Stream.Open(compareQuery, compareFeed.deliveries, env.closeSetsErr);
    report := report.(tracks := [searchQuery, compareQuery]);
    var queryTweets := new Collection(QueryCollection, env.queryStore, env.queryFault);
    var compareTweets := new Collection(CompareCollection, env.compareStore, env.compareFault);
    var stop, searchTweetCount, compareTweetCount := Lockstep(ts, cs, queryTweets, compareTweets);
    report := Report(Ingested(stop), report.tracks, queryTweets.records, compareTweets.records,
                     searchTweetCount, compareTweetCount);
  }

  /** `main`, run on one sequence of keyboard events shared by both prompts. */
  method Analyst(keys: seq<Event>, env: Environment) returns (report: Report)
    ensures report.exit == TerminalPanic <==> !env.terminalReady
    // a prompt panics on an input error, or is still waiting for a key
    ensures report.exit == InputPanic <==>
      && env.terminalReady
      && (FirstPrompt(keys).Crashed? || (Accepted(FirstPrompt(keys)) && SecondPrompt(keys).Crashed?))
    ensures report.exit == AwaitingKeys <==>
      && env.terminalReady
      && (FirstPrompt(keys).Waiting? || (Accepted(FirstPrompt(keys)) && SecondPrompt(keys).Waiting?))
    ensures report.exit == NothingToSearch <==>
      && env.terminalReady
      && (Rejected(FirstPrompt(keys)) || (Accepted(FirstPrompt(keys)) && Rejected(SecondPrompt(keys))))
    // after both prompts, the first check that fails decides the exit
    ensures report.exit == UsageExit <==>
      && env.terminalReady && Accepted(FirstPrompt(keys)) && Accepted(SecondPrompt(keys))
      && !env.flagsValid
    ensures report.exit == ConfigError <==>
      && env.terminalReady && Accepted(FirstPrompt(keys)) && Accepted(SecondPrompt(keys))
      && env.flagsValid && !env.configReadable
    ensures report.exit == DialPanic <==>
      && env.terminalReady && Accepted(FirstPrompt(keys)) && Accepted(SecondPrompt(keys))
      && env.flagsValid && env.configReadable && !env.storeReachable
    ensures report.exit == OpenFailed(Query) <==>
      Configured(keys, env) && env.feedFor(Query, FirstPrompt(keys).query).Refused?
    ensures report.exit == OpenFailed(Compare) <==>
      && Configured(keys, env) && env.feedFor(Query, FirstPrompt(keys).query).Live?
      && env.feedFor(Compare, SecondPrompt(keys).query).Refused?
    ensures report.exit.Ingested? <==> Ready(keys, env)
    ensures report.exit.Ingested? ==>
      var s := ScriptFor(keys, env);
      && report.exit.stop == Ending(s)
      && report.searchTweetCount == QueryCount(s)
      && report.compareTweetCount == CompareCount(s)
      && report.queryTweets == env.queryStore + Archive(s.queryFeed, QueryStored(s))
      && report.compareTweets == env.compareStore + Archive(s.compareFeed, CompareStored(s))
    ensures !report.exit.Ingested? ==>
      && report.queryTweets == env.queryStore
      && report.compareTweets == env.compareStore
      && report.searchTweetCount == report.compareTweetCount == 0
    // a track is listed exactly when its stream was opened
    ensures |report.tracks| >= 1 <==> Configured(keys, env) && env.feedFor(Query, FirstPrompt(keys).query).Live?
    ensures |report.tracks| >= 1 ==> report.tracks <= [FirstPrompt(keys).query, SecondPrompt(keys).query]
    ensures |report.tracks| == 2 <==> Ready(keys, env)
  {
    report := Report(TerminalPanic, [], env.queryStore, env.compareStore, 0, 0);
    if !env.terminalReady {
      return;
    }
    var first, used := TermboxQuery(keys);
    if first.Crashed? {
      return report.(exit := InputPanic);
    } else if first.Waiting? {
      return report.(exit := AwaitingKeys);
    }
    var searchQuery := first.query;
    if IsInvalidQuery(searchQuery) {
      return report.(exit := NothingToSearch);
    }
    var second, _ := TermboxQuery(keys[used..]);
    if second.Crashed? {
      return report.(exit := InputPanic);
    } else if second.Waiting? {
      return report.(exit := AwaitingKeys);
    }
    var compareQuery := second.query;
    if IsInvalidQuery(compareQuery) {
      return report.(exit := NothingToSearch);
    }
    report := OpenAndIngest(searchQuery, compareQuery, env);
  }
}
