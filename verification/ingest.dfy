/** The lockstep loop at the end of `main`: each iteration reads one item from
    the query stream and then one from the compare stream, parses both creation
    times, counts each stream and closes it at its 25th item, and stores one
    document per stream. Any failure ends the run. */
module Ingest {
  import opened Wrappers
  import opened Tweets
  import opened Streams

  /** Items read from a stream before it is closed. */
  const Cap: nat := 25

  datatype Side = Query | Compare

  /** Why the loop ended: both streams report themselves closed, or the named
      step failed (a read that blocks forever is `Stalled`). */
  datatype Stop =
    | Capped
    | Stalled(side: Side)
    | ReadFailed(side: Side)
    | BadTime(side: Side)
    | InsertFailed(side: Side)

  /** Everything the collaborators will do: what each feed delivers, which
      insert, if any, each collection rejects, and whether closing a stream
      makes its Err() report it closed. */
  datatype Script = Script(
    queryFeed: seq<Read>,
    compareFeed: seq<Read>,
    queryFault: Option<nat>,
    compareFault: Option<nat>,
    closeSetsErr: bool)

  function ScriptOf(ts: Stream, cs: Stream, queryTweets: Collection, compareTweets: Collection): Script {
    Script(ts.feed, cs.feed, queryTweets.faultAt, compareTweets.faultAt, ts.closeSetsErr)
  }

  // ---------------------------------------------------------------------------
  // The run a script leads to

  /** Delivery i of the feed is a tweet whose creation time parses. */
  predicate Delivers(feed: seq<Read>, i: nat) {
    i < |feed| && feed[i].Item? && feed[i].tweet.createdAt.Parsed?
  }

  /** The first n deliveries of the feed are tweets whose creation times parse. */
  predicate DeliversFirst(feed: seq<Read>, n: nat) {
    n <= |feed| && forall i | 0 <= i < n :: feed[i].Item? && feed[i].tweet.createdAt.Parsed?
  }

  /** Iteration i (from 0) goes through without a failure. Iteration Cap, the
      26th, never does: it reads from a closed stream. */
  predicate Clean(s: Script, i: nat) {
    && i < Cap
    && Delivers(s.queryFeed, i)
    && Delivers(s.compareFeed, i)
    && s.queryFault != Some(i)
    && s.compareFault != Some(i)
  }

  lemma CleanDelivers(s: Script, n: nat)
    requires forall j | 0 <= j < n :: Clean(s, j)
    ensures DeliversFirst(s.queryFeed, n) && DeliversFirst(s.compareFeed, n)
  {
    if n > 0 {
      assert Clean(s, n - 1);
    }
    forall i | 0 <= i < n
      ensures s.queryFeed[i].Item? && s.queryFeed[i].tweet.createdAt.Parsed?
      ensures s.compareFeed[i].Item? && s.compareFeed[i].tweet.createdAt.Parsed?
    {
      assert Clean(s, i);
    }
  }

  function CompletedFrom(s: Script, i: nat): (n: nat)
    requires i <= Cap
    ensures i <= n <= Cap
    ensures forall j | i <= j < n :: Clean(s, j)
    ensures n < Cap ==> !Clean(s, n)
    decreases Cap - i
  {
    if i == Cap || !Clean(s, i) then i else CompletedFrom(s, i + 1)
  }

  /** The number of iterations that complete: the first failing one, or Cap. */
  function Completed(s: Script): (n: nat)
    ensures n <= Cap
    ensures forall j | 0 <= j < n :: Clean(s, j)
    ensures n < Cap ==> !Clean(s, n)
  {
    CompletedFrom(s, 0)
  }

  lemma CompletedExactly(s: Script, k: nat)
    requires k <= Cap
    requires forall i | 0 <= i < k :: Clean(s, i)
    requires k == Cap || !Clean(s, k)
    ensures Completed(s) == k
  {
  }

  /** What a run that fails in iteration k, at the given step, leaves behind. */
  lemma FailsIn(s: Script, k: nat, stop: Stop)
    requires k <= Cap
    requires forall i | 0 <= i < k :: Clean(s, i)
    requires !Clean(s, k) && stop == FailureAt(s, k)
    requires k == Cap ==> !s.closeSetsErr
    ensures Completed(s) == k && Ending(s) == stop
    ensures QueryReads(s) == k + (if Steps(k, stop) >= 1 then 1 else 0)
    ensures CompareReads(s) == k + (if Steps(k, stop) >= 2 then 1 else 0)
    ensures QueryCount(s) == k + (if Steps(k, stop) >= 3 then 1 else 0)
    ensures CompareCount(s) == k + (if Steps(k, stop) >= 4 then 1 else 0)
    ensures QueryStored(s) == k + (if Steps(k, stop) >= 5 then 1 else 0)
    ensures CompareStored(s) == k
    ensures Archive(s.queryFeed, QueryStored(s)) ==
              Archive(s.queryFeed, k) + (if Steps(k, stop) >= 5 then [RecordOf(s.queryFeed[k].tweet)] else [])
    ensures Archive(s.compareFeed, CompareStored(s)) == Archive(s.compareFeed, k)
  {
    CompletedExactly(s, k);
  }

  /** The first step of iteration i that fails, in the order the loop body
      performs them. */
  function FailureAt(s: Script, i: nat): Stop
    requires !Clean(s, i)
  {
    if i >= Cap then ReadFailed(Query)
    else if i >= |s.queryFeed| then Stalled(Query)
    else if s.queryFeed[i].Failure? then ReadFailed(Query)
    else if i >= |s.compareFeed| then Stalled(Compare)
    else if s.compareFeed[i].Failure? then ReadFailed(Compare)
    else if s.queryFeed[i].tweet.createdAt.Unparseable? then BadTime(Query)
    else if s.compareFeed[i].tweet.createdAt.Unparseable? then BadTime(Compare)
    else if s.queryFault == Some(i) then InsertFailed(Query)
    else InsertFailed(Compare)
  }

  function Ending(s: Script): Stop {
    var n := Completed(s);
    if n == Cap && s.closeSetsErr then Capped else FailureAt(s, n)
  }

  /** How many steps of the last, failed iteration took effect:
      1 the query item was read, 2 the compare item was read, 3 the query
      stream was counted, 4 the compare stream was counted, 5 the query
      document was stored. */
  function Progress(stop: Stop): nat {
    match stop
    case Capped => 0
    case Stalled(Query) => 0
    case ReadFailed(Query) => 1
    case Stalled(Compare) => 1
    case ReadFailed(Compare) => 2
    case BadTime(Query) => 2
    case BadTime(Compare) => 3
    case InsertFailed(Query) => 4
    case InsertFailed(Compare) => 5
  }

  /** How many steps of failed iteration k took effect. The read that fails in
      iteration Cap is made on a closed stream and consumes no delivery. */
  function Steps(k: nat, stop: Stop): (p: nat)
    ensures p <= 5
  {
    if k < Cap then Progress(stop) else 0
  }

  function Effects(s: Script, step: nat): nat {
    Completed(s) + if Steps(Completed(s), Ending(s)) >= step then 1 else 0
  }

  function QueryReads(s: Script): nat { Effects(s, 1) }
  function CompareReads(s: Script): nat { Effects(s, 2) }
  function QueryCount(s: Script): nat { Effects(s, 3) }
  function CompareCount(s: Script): nat { Effects(s, 4) }

  function QueryStored(s: Script): (n: nat)
    ensures DeliversFirst(s.queryFeed, n)
  {
    var done := Completed(s);
    CleanDelivers(s, done);
    if Ending(s) == InsertFailed(Compare) then
      assert Delivers(s.queryFeed, done);
      done + 1
    else
      done
  }

  function CompareStored(s: Script): (n: nat)
    ensures DeliversFirst(s.compareFeed, n)
  {
    var done := Completed(s);
    CleanDelivers(s, done);
    done
  }

  /** The documents stored for the first n deliveries of a feed. */
  function Archive(feed: seq<Read>, n: nat): (r: seq<Record>)
    requires DeliversFirst(feed, n)
    ensures |r| == n
  {
    if n == 0 then [] else Archive(feed, n - 1) + [RecordOf(feed[n - 1].tweet)]
  }

  /** Document i of the archive is the one built for delivery i. */
  lemma {:induction false} ArchiveAt(feed: seq<Read>, n: nat, i: nat)
    requires DeliversFirst(feed, n) && i < n
    ensures Archive(feed, n)[i] == RecordOf(feed[i].tweet)
  {
    if i < n - 1 {
      ArchiveAt(feed, n - 1, i);
    }
  }

  lemma ArchiveSnoc(feed: seq<Read>, k: nat)
    requires DeliversFirst(feed, k + 1)
    ensures Archive(feed, k + 1) == Archive(feed, k) + [RecordOf(feed[k].tweet)]
  {
  }

  // ---------------------------------------------------------------------------
  // The loop

  /** The body of the loop: one item from each stream, in lockstep. It takes
      and returns the two counters; `failure` names the step that failed. */
  method Iteration(ts: Stream, cs: Stream, queryTweets: Collection, compareTweets: Collection,
                   ghost s: Script, searchTweetCount: nat, compareTweetCount: nat)
    returns (failure: Option<Stop>, searchTweetCount': nat, compareTweetCount': nat)
    requires ts != cs && queryTweets != compareTweets
    requires s == Script(ts.feed, cs.feed, queryTweets.faultAt, compareTweets.faultAt, ts.closeSetsErr)
    requires ts.closeSetsErr == cs.closeSetsErr
    requires searchTweetCount == compareTweetCount <= Cap
    requires ts.Valid() && cs.Valid() && ts.err == None && cs.err == None
    requires ts.closed == cs.closed == (searchTweetCount == Cap)
    requires ts.cursor == cs.cursor == searchTweetCount
    requires queryTweets.inserts == compareTweets.inserts == searchTweetCount
    modifies ts, cs, queryTweets, compareTweets
    ensures ts.Valid() && cs.Valid()
    ensures failure.None? <==> Clean(s, searchTweetCount)
    ensures failure.Some? ==> failure.value == FailureAt(s, searchTweetCount)
    ensures var k, p := searchTweetCount, if failure.Some? then Steps(searchTweetCount, failure.value) else 6;
      && ts.cursor == k + (if p >= 1 then 1 else 0)
      && cs.cursor == k + (if p >= 2 then 1 else 0)
      && searchTweetCount' == k + (if p >= 3 then 1 else 0)
      && compareTweetCount' == k + (if p >= 4 then 1 else 0)
      && queryTweets.inserts == k + (if p >= 4 then 1 else 0)
      && compareTweets.inserts == k + (if p >= 5 then 1 else 0)
      && queryTweets.records == old(queryTweets.records) + (if p >= 5 then [RecordOf(ts.feed[k].tweet)] else [])
      && compareTweets.records == old(compareTweets.records) + (if p >= 6 then [RecordOf(cs.feed[k].tweet)] else [])
    ensures ts.closed <==> searchTweetCount' == Cap
    ensures cs.closed <==> compareTweetCount' == Cap
    ensures failure.None? ==>
      ts.err == cs.err == (if searchTweetCount' == Cap && s.closeSetsErr then Some(Closed) else None)
  {
    searchTweetCount', compareTweetCount' := searchTweetCount, compareTweetCount;
    var qt := ts.UnmarshalNext();
    if qt.Blocked? {
      return Some(Stalled(Query)), searchTweetCount', compareTweetCount';
    }
    if qt.Failed? {
      return Some(ReadFailed(Query)), searchTweetCount', compareTweetCount';
    }
    var ct := cs.UnmarshalNext();
    if ct.Blocked? {
      return Some(Stalled(Compare)), searchTweetCount', compareTweetCount';
    }
    if ct.Failed? {
      return Some(ReadFailed(Compare)), searchTweetCount', compareTweetCount';
    }
    var queryTweet, compareTweet := qt.tweet, ct.tweet;
    if queryTweet.createdAt.Unparseable? {
      return Some(BadTime(Query)), searchTweetCount', compareTweetCount';
    }
    searchTweetCount' := searchTweetCount' + 1;
    if searchTweetCount' == Cap {
      ts.Close();
    }
    if compareTweet.createdAt.Unparseable? {
      return Some(BadTime(Compare)), searchTweetCount', compareTweetCount';
    }
    compareTweetCount' := compareTweetCount' + 1;
    if compareTweetCount' == Cap {
      cs.Close();
    }
    var queryInserted := queryTweets.Insert(RecordOf(queryTweet));
    if !queryInserted {
      return Some(InsertFailed(Query)), searchTweetCount', compareTweetCount';
    }
    var compareInserted := compareTweets.Insert(RecordOf(compareTweet));
    if !compareInserted {
      return Some(InsertFailed(Compare)), searchTweetCount', compareTweetCount';
    }
    failure := None;
  }

  /** The loop's state after k iterations that all went through; q0 and c0
      are the collections' documents before the loop. */
  ghost predicate Running(s: Script, ts: Stream, cs: Stream, queryTweets: Collection, compareTweets: Collection,
                          q0: seq<Record>, c0: seq<Record>, k: nat)
    reads ts, cs, queryTweets, compareTweets
  {
    && ts != cs && queryTweets != compareTweets
    && ts.Valid() && cs.Valid()
    && s == Script(ts.feed, cs.feed, queryTweets.faultAt, compareTweets.faultAt, ts.closeSetsErr)
    && ts.closeSetsErr == cs.closeSetsErr
    && k <= Cap
    && (forall i | 0 <= i < k :: Clean(s, i))
    && DeliversFirst(ts.feed, k) && DeliversFirst(cs.feed, k)
    && ts.cursor == cs.cursor == k
    && queryTweets.inserts == compareTweets.inserts == k
    && queryTweets.records == q0 + Archive(ts.feed, k)
    && compareTweets.records == c0 + Archive(cs.feed, k)
    && ts.closed == cs.closed == (k == Cap)
    && ts.err == cs.err == (if k == Cap && s.closeSetsErr then Some(Closed) else None)
  }

  /** The state the loop leaves behind, in terms of the run its script leads to. */
  ghost predicate Reported(s: Script, ts: Stream, cs: Stream, queryTweets: Collection, compareTweets: Collection,
                           q0: seq<Record>, c0: seq<Record>, stop: Stop, searchTweetCount: nat, compareTweetCount: nat)
    reads ts, cs, queryTweets, compareTweets
  {
    && ts.Valid() && cs.Valid()
    && stop == Ending(s)
    && searchTweetCount == QueryCount(s) && compareTweetCount == CompareCount(s)
    && ts.cursor == QueryReads(s) && cs.cursor == CompareReads(s)
    && queryTweets.records == q0 + Archive(s.queryFeed, QueryStored(s))
    && compareTweets.records == c0 + Archive(s.compareFeed, CompareStored(s))
    && (ts.closed <==> searchTweetCount == Cap)
    && (cs.closed <==> compareTweetCount == Cap)
  }

  /** One iteration, seen from the whole run: it either keeps the loop's state
      one iteration further on, or ends the run in the state the script predicts. */
  method Round(ts: Stream, cs: Stream, queryTweets: Collection, compareTweets: Collection,
               ghost s: Script, ghost q0: seq<Record>, ghost c0: seq<Record>,
               searchTweetCount: nat, compareTweetCount: nat)
    returns (failure: Option<Stop>, searchTweetCount': nat, compareTweetCount': nat)
    requires Running(s, ts, cs, queryTweets, compareTweets, q0, c0, searchTweetCount)
    requires searchTweetCount == compareTweetCount
    requires ts.err == None && cs.err == None
    modifies ts, cs, queryTweets, compareTweets
    ensures failure.None? ==>
      && searchTweetCount' == compareTweetCount' == searchTweetCount + 1
      && Running(s, ts, cs, queryTweets, compareTweets, q0, c0, searchTweetCount')
    ensures failure.Some? ==>
      Reported(s, ts, cs, queryTweets, compareTweets, q0, c0, failure.value, searchTweetCount', compareTweetCount')
  {
    ghost var k := searchTweetCount;
    ghost var queryBefore, compareBefore := queryTweets.records, compareTweets.records;
    failure, searchTweetCount', compareTweetCount' :=
      Iteration(ts, cs, queryTweets, compareTweets, s, searchTweetCount, compareTweetCount);
    Settle(s, ts, cs, queryTweets, compareTweets, q0, c0, k, queryBefore, compareBefore,
           failure, searchTweetCount', compareTweetCount');
  }

  /** What an iteration leaves, whether it went through or not, seen from the
      whole run. The two cases are separate lemmas to keep each proof small
      enough for the solver. */
  lemma Settle(s: Script, ts: Stream, cs: Stream, queryTweets: Collection, compareTweets: Collection,
               q0: seq<Record>, c0: seq<Record>, k: nat, queryBefore: seq<Record>, compareBefore: seq<Record>,
               failure: Option<Stop>, searchTweetCount: nat, compareTweetCount: nat)
    requires ts != cs && queryTweets != compareTweets
    requires ts.Valid() && cs.Valid()
    requires s == Script(ts.feed, cs.feed, queryTweets.faultAt, compareTweets.faultAt, ts.closeSetsErr)
    requires ts.closeSetsErr == cs.closeSetsErr
    requires k <= Cap
    requires k == Cap ==> !s.closeSetsErr
    requires forall i | 0 <= i < k :: Clean(s, i)
    requires DeliversFirst(ts.feed, k) && DeliversFirst(cs.feed, k)
    requires queryBefore == q0 + Archive(ts.feed, k)
    requires compareBefore == c0 + Archive(cs.feed, k)
    requires failure.None? <==> Clean(s, k)
    requires failure.Some? ==> failure.value == FailureAt(s, k)
    requires var p := if failure.Some? then Steps(k, failure.value) else 6;
      && ts.cursor == k + (if p >= 1 then 1 else 0)
      && cs.cursor == k + (if p >= 2 then 1 else 0)
      && searchTweetCount == k + (if p >= 3 then 1 else 0)
      && compareTweetCount == k + (if p >= 4 then 1 else 0)
      && queryTweets.inserts == k + (if p >= 4 then 1 else 0)
      && compareTweets.inserts == k + (if p >= 5 then 1 else 0)
      && queryTweets.records == queryBefore + (if p >= 5 then [RecordOf(ts.feed[k].tweet)] else [])
      && compareTweets.records == compareBefore + (if p >= 6 then [RecordOf(cs.feed[k].tweet)] else [])
    requires ts.closed <==> searchTweetCount == Cap
    requires cs.closed <==> compareTweetCount == Cap
    requires failure.None? ==>
      ts.err == cs.err == (if searchTweetCount == Cap && s.closeSetsErr then Some(Closed) else None)
    ensures failure.None? ==>
      && searchTweetCount == compareTweetCount == k + 1
      && Running(s, ts, cs, queryTweets, compareTweets, q0, c0, searchTweetCount)
    ensures failure.Some? ==>
      Reported(s, ts, cs, queryTweets, compareTweets, q0, c0, failure.value, searchTweetCount, compareTweetCount)
  {
    if failure.Some? {
      SettleFailure(s, ts, cs, queryTweets, compareTweets, q0, c0, k, queryBefore, compareBefore,
                    failure.value, searchTweetCount, compareTweetCount);
    } else {
      SettleClean(s, ts, cs, queryTweets, compareTweets, q0, c0, k, queryBefore, compareBefore,
                  searchTweetCount, compareTweetCount);
    }
  }

  /** A failed iteration, seen from the whole run. */
  lemma SettleFailure(s: Script, ts: Stream, cs: Stream, queryTweets: Collection, compareTweets: Collection,
                      q0: seq<Record>, c0: seq<Record>, k: nat, queryBefore: seq<Record>, compareBefore: seq<Record>,
                      stop: Stop, searchTweetCount: nat, compareTweetCount: nat)
    requires ts.Valid() && cs.Valid()
    requires s == Script(ts.feed, cs.feed, queryTweets.faultAt, compareTweets.faultAt, ts.closeSetsErr)
    requires k <= Cap
    requires k == Cap ==> !s.closeSetsErr
    requires forall i | 0 <= i < k :: Clean(s, i)
    requires DeliversFirst(ts.feed, k) && DeliversFirst(cs.feed, k)
    requires queryBefore == q0 + Archive(ts.feed, k)
    requires compareBefore == c0 + Archive(cs.feed, k)
    requires !Clean(s, k) && stop == FailureAt(s, k)
    requires var p := Steps(k, stop);
      && ts.cursor == k + (if p >= 1 then 1 else 0)
      && cs.cursor == k + (if p >= 2 then 1 else 0)
      && searchTweetCount == k + (if p >= 3 then 1 else 0)
      && compareTweetCount == k + (if p >= 4 then 1 else 0)
      && queryTweets.records == queryBefore + (if p >= 5 then [RecordOf(ts.feed[k].tweet)] else [])
      && compareTweets.records == compareBefore
    requires ts.closed <==> searchTweetCount == Cap
    requires cs.closed <==> compareTweetCount == Cap
    ensures Reported(s, ts, cs, queryTweets, compareTweets, q0, c0, stop, searchTweetCount, compareTweetCount)
  {
    FailsIn(s, k, stop);
  }

  /** A clean iteration takes the loop's state from k iterations to k + 1. */
  lemma SettleClean(s: Script, ts: Stream, cs: Stream, queryTweets: Collection, compareTweets: Collection,
                    q0: seq<Record>, c0: seq<Record>, k: nat, queryBefore: seq<Record>, compareBefore: seq<Record>,
                    searchTweetCount: nat, compareTweetCount: nat)
    requires ts != cs && queryTweets != compareTweets
    requires ts.Valid() && cs.Valid()
    requires s == Script(ts.feed, cs.feed, queryTweets.faultAt, compareTweets.faultAt, ts.closeSetsErr)
    requires ts.closeSetsErr == cs.closeSetsErr
    requires forall i | 0 <= i < k :: Clean(s, i)
    requires Clean(s, k)
    requires DeliversFirst(ts.feed, k) && DeliversFirst(cs.feed, k)
    requires queryBefore == q0 + Archive(ts.feed, k)
    requires compareBefore == c0 + Archive(cs.feed, k)
    requires ts.cursor == cs.cursor == searchTweetCount == compareTweetCount == k + 1
    requires queryTweets.inserts == compareTweets.inserts == k + 1
    requires queryTweets.records == queryBefore + [RecordOf(ts.feed[k].tweet)]
    requires compareTweets.records == compareBefore + [RecordOf(cs.feed[k].tweet)]
    requires ts.closed <==> searchTweetCount == Cap
    requires cs.closed <==> compareTweetCount == Cap
    requires ts.err == cs.err == (if searchTweetCount == Cap && s.closeSetsErr then Some(Closed) else None)
    ensures Running(s, ts, cs, queryTweets, compareTweets, q0, c0, k + 1)
  {
    CleanDelivers(s, k + 1);
    ArchiveSnoc(ts.feed, k);
    ArchiveSnoc(cs.feed, k);
  }

  /** The loop, run until a stream reports an error (both are closed after
      their 25th item) or a step fails. */
  method Lockstep(ts: Stream, cs: Stream, queryTweets: Collection, compareTweets: Collection)
    returns (stop: Stop, searchTweetCount: nat, compareTweetCount: nat)
    requires ts != cs && queryTweets != compareTweets
    requires ts.Valid() && cs.Valid()
    requires ts.closeSetsErr == cs.closeSetsErr
    requires ts.cursor == 0 && ts.err == None && !ts.closed
    requires cs.cursor == 0 && cs.err == None && !cs.closed
    requires queryTweets.inserts == 0 && compareTweets.inserts == 0
    modifies ts, cs, queryTweets, compareTweets
    ensures ts.Valid() && cs.Valid()
    ensures var s := ScriptOf(ts, cs, queryTweets, compareTweets);
      && stop == Ending(s)
      && searchTweetCount == QueryCount(s)
      && compareTweetCount == CompareCount(s)
      && ts.cursor == QueryReads(s)
      && cs.cursor == CompareReads(s)
    ensures var s := ScriptOf(ts, cs, queryTweets, compareTweets);
      && queryTweets.records == old(queryTweets.records) + Archive(ts.feed, QueryStored(s))
      && compareTweets.records == old(compareTweets.records) + Archive(cs.feed, CompareStored(s))
    ensures ts.closed <==> searchTweetCount == Cap
    ensures cs.closed <==> compareTweetCount == Cap
  {
    ghost var s := ScriptOf(ts, cs, queryTweets, compareTweets);
    ghost var q0, c0 := queryTweets.records, compareTweets.records;
    searchTweetCount, compareTweetCount := 0, 0;
    StartRunning(s, ts, cs, queryTweets, compareTweets, q0, c0);
    while ts.Err().None? && cs.Err().None?
      invariant Running(s, ts, cs, queryTweets, compareTweets, q0, c0, searchTweetCount)
      invariant searchTweetCount == compareTweetCount
      decreases Cap + 1 - searchTweetCount
    {
      var failure;
      failure, searchTweetCount, compareTweetCount :=
        Round(ts, cs, queryTweets, compareTweets, s, q0, c0, searchTweetCount, compareTweetCount);
      if failure.Some? {
        stop := failure.value;
        return;
      }
    }
    stop := Capped;
    CappedReport(s, ts, cs, queryTweets, compareTweets, q0, c0, searchTweetCount);
  }

  lemma StartRunning(s: Script, ts: Stream, cs: Stream, queryTweets: Collection, compareTweets: Collection,
                     q0: seq<Record>, c0: seq<Record>)
    requires ts != cs && queryTweets != compareTweets
    requires ts.Valid() && cs.Valid()
    requires ts.closeSetsErr == cs.closeSetsErr
    requires ts.cursor == 0 && ts.err == None && !ts.closed
    requires cs.cursor == 0 && cs.err == None && !cs.closed
    requires queryTweets.inserts == 0 && compareTweets.inserts == 0
    requires s == ScriptOf(ts, cs, queryTweets, compareTweets)
    requires q0 == queryTweets.records && c0 == compareTweets.records
    ensures Running(s, ts, cs, queryTweets, compareTweets, q0, c0, 0)
  {
  }

  /** The loop condition fails only when closing sets the error, and then both
      streams were closed after Cap clean iterations. */
  lemma CappedReport(s: Script, ts: Stream, cs: Stream, queryTweets: Collection, compareTweets: Collection,
                     q0: seq<Record>, c0: seq<Record>, k: nat)
    requires Running(s, ts, cs, queryTweets, compareTweets, q0, c0, k)
    requires ts.err.Some? || cs.err.Some?
    ensures Reported(s, ts, cs, queryTweets, compareTweets, q0, c0, Capped, k, k)
  {
    CompletedExactly(s, k);
  }

  // ---------------------------------------------------------------------------
  // Properties of every run

  /** The query side is never behind the compare side and never more than one
      step ahead; nothing is read from a stream after it was closed, and an
      item is stored only after it was read and counted. */
  lemma Balanced(s: Script)
    ensures CompareReads(s) <= QueryReads(s) <= CompareReads(s) + 1
    ensures CompareCount(s) <= QueryCount(s) <= CompareCount(s) + 1
    ensures CompareStored(s) <= QueryStored(s) <= CompareStored(s) + 1
    ensures QueryStored(s) <= QueryCount(s) <= QueryReads(s) <= Cap
    ensures CompareStored(s) <= CompareCount(s) <= CompareReads(s) <= Cap
    ensures QueryStored(s) == CompareStored(s) <==> Ending(s) != InsertFailed(Compare)
  {
    var n := Completed(s);
    if n < Cap {
      assert !Clean(s, n);
    }
  }

  /** When every one of the first 25 iterations goes through, each stream
      yields exactly 25 documents. The loop then ends because both streams
      report themselves closed, or, when closing leaves Err() alone, because
      the 26th iteration's read on the closed query stream fails; that read
      consumes no delivery and stores nothing. */
  lemma CleanRunIsCapped(s: Script)
    requires forall i | 0 <= i < Cap :: Clean(s, i)
    ensures Ending(s) == if s.closeSetsErr then Capped else ReadFailed(Query)
    ensures QueryReads(s) == CompareReads(s) == Cap
    ensures QueryCount(s) == CompareCount(s) == Cap
    ensures QueryStored(s) == CompareStored(s) == Cap
  {
    CompletedExactly(s, Cap);
  }

  /** A failure on the compare stream also ends the query stream's processing:
      its read in that iteration happened, but it is neither counted nor stored,
      and nothing later is read from it. */
  lemma CompareFailureStopsQuery(s: Script, i: nat)
    requires i < Cap
    requires forall j | 0 <= j < i :: Clean(s, j)
    requires i < |s.queryFeed| && s.queryFeed[i].Item?
    requires i < |s.compareFeed| && s.compareFeed[i].Failure?
    ensures Ending(s) == ReadFailed(Compare)
    ensures QueryReads(s) == i + 1 && QueryCount(s) == i && QueryStored(s) == i
  {
    CompletedExactly(s, i);
  }

  /** The stored documents keep every field of the delivered tweets, in order. */
  lemma StoredInOrder(s: Script, i: nat)
    requires i < QueryStored(s)
    ensures s.queryFeed[i].Item? && s.queryFeed[i].tweet.createdAt.Parsed?
    ensures Archive(s.queryFeed, QueryStored(s))[i] == RecordOf(s.queryFeed[i].tweet)
    ensures TweetOf(Archive(s.queryFeed, QueryStored(s))[i]) == s.queryFeed[i].tweet
  {
    ArchiveAt(s.queryFeed, QueryStored(s), i);
  }
}
