/** Stand-ins for the two collaborators the ingestion loop drives: a filtered
    stream handle (opened for one track term, read one item at a time, closed)
    and a store collection that documents are inserted into. Their network and
    database work is not modelled: a stream's feed and a collection's failing
    insert are given when they are created. */
module Streams {
  import opened Wrappers
  import opened Tweets

  /** The permanent error a stream handle can hold. */
  datatype StreamError = Broken | Closed

  /** One delivery from the feed: a decoded tweet, or a failure (network or
      JSON decoding). */
  datatype Read = Item(tweet: Tweet) | Failure

  /** What one UnmarshalNext call yields; `Blocked` stands for a read that waits
      forever because the feed delivers nothing more. */
  datatype Next = Got(tweet: Tweet) | Failed(error: StreamError) | Blocked

  class Stream {
    const track: string
    /** Everything the feed will deliver, in order. */
    const feed: seq<Read>
    /** Whether closing the handle makes Err() report it closed at once, or
        only the next read on it fails. */
    const closeSetsErr: bool
    /** How many deliveries have been read. */
    var cursor: nat
    /** Err(): None while the stream is healthy. */
    var err: Option<StreamError>
    /** Close has been called. */
    var closed: bool

    ghost predicate Valid()
      reads this
    {
      cursor <= |feed|
    }

    constructor Open(track: string, feed: seq<Read>, closeSetsErr: bool)
      ensures Valid()
      ensures this.track == track && this.feed == feed && this.closeSetsErr == closeSetsErr
      ensures cursor == 0 && err == None && !closed
    {
      this.track := track;
      this.feed := feed;
      this.closeSetsErr := closeSetsErr;
      cursor := 0;
      err := None;
      closed := false;
    }

    function Err(): Option<StreamError>
      reads this
    {
      err
    }

    /** Reads the next delivery. A stream with an error yields that error; a
        read on a closed handle, or a failed delivery, fails and the failure
        becomes the stream's permanent error. */
    method UnmarshalNext() returns (next: Next)
      requires Valid()
      modifies this
      ensures Valid() && closed == old(closed)
      ensures old(err).Some? ==> next == Failed(old(err).value) && cursor == old(cursor) && err == old(err)
      ensures old(err).None? && old(closed) ==>
                next == Failed(Closed) && cursor == old(cursor) && err == Some(Closed)
      ensures old(err).None? && !old(closed) && old(cursor) == |feed| ==>
                next == Blocked && cursor == old(cursor) && err == None
      ensures old(err).None? && !old(closed) && old(cursor) < |feed| ==>
                cursor == old(cursor) + 1 &&
                match feed[old(cursor)]
                case Item(t) => next == Got(t) && err == None
                case Failure => next == Failed(Broken) && err == Some(Broken)
    {
      if err.Some? {
        next := Failed(err.value);
      } else if closed {
        err := Some(Closed);
        next := Failed(Closed);
      } else if cursor == |feed| {
        next := Blocked;
      } else {
        match feed[cursor] {
          case Item(t) =>
            next := Got(t);
          case Failure =>
            err := Some(Broken);
            next := Failed(Broken);
        }
        cursor := cursor + 1;
      }
    }

    /** Closes the handle. When closing sets the error, Err() reports it
        closed from then on; otherwise Err() is unchanged and the next read
        fails. */
    method Close()
      requires Valid()
      modifies this
      ensures Valid() && closed
      ensures cursor == old(cursor)
      ensures err == if old(err).None? && closeSetsErr then Some(Closed) else old(err)
    {
      closed := true;
      if err.None? && closeSetsErr {
        err := Some(Closed);
      }
    }
  }

  /** A store collection. Documents are only ever appended. */
  class Collection {
    const name: string
    /** The number of the insert (counting from 0) that the store rejects, if any. */
    const faultAt: Option<nat>
    var records: seq<Record>
    /** Inserts attempted through this handle. */
    var inserts: nat

    constructor (name: string, existing: seq<Record>, faultAt: Option<nat>)
      ensures this.name == name && this.faultAt == faultAt
      ensures records == existing && inserts == 0
    {
      this.name := name;
      this.faultAt := faultAt;
      records := existing;
      inserts := 0;
    }

    method Insert(r: Record) returns (ok: bool)
      modifies this
      ensures inserts == old(inserts) + 1
      ensures ok <==> faultAt != Some(old(inserts))
      ensures records == if ok then old(records) + [r] else old(records)
    {
      ok := faultAt != Some(inserts);
      if ok {
        records := records + [r];
      }
      inserts := inserts + 1;
    }
  }
}
