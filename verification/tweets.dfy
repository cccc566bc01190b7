/** The items a filtered stream delivers, the documents stored for them, and the
    permalink printed for each one. */
module Tweets {
  import opened Wrappers

  /** Go's `int64`, the type of a tweet's id. */
  newtype Int64 = x: int | -0x8000_0000_0000_0000 <= x < 0x8000_0000_0000_0000

  /** A point in time as `CreatedAtTime` produces it; its representation is opaque here. */
  type Instant = int

  /** The outcome of parsing a tweet's creation time. */
  datatype CreatedAt = Parsed(time: Instant) | Unparseable

  /** The four fields of a decoded tweet that the program uses. */
  datatype Tweet = Tweet(screenName: string, text: string, id: Int64, createdAt: CreatedAt)

  /** The document inserted into a collection: ScreenName, Text, Id and CreatedAt. */
  datatype Record = Record(screenName: string, text: string, id: Int64, createdAt: Instant)

  /** Reads a stored document back as the tweet fields it was made from. */
  function TweetOf(r: Record): Tweet {
    Tweet(r.screenName, r.text, r.id, Parsed(r.createdAt))
  }

  /** The document built for a tweet whose creation time parsed; nothing is lost. */
  function RecordOf(t: Tweet): (r: Record)
    requires t.createdAt.Parsed?
    ensures TweetOf(r) == t
  {
    Record(t.screenName, t.text, t.id, t.createdAt.time)
  }

  // ---------------------------------------------------------------------------
  // Decimal rendering of an id, as fmt.Print writes an int64

  predicate IsDigit(c: char) {
    '0' <= c <= '9'
  }

  predicate AllDigits(s: string) {
    forall i | 0 <= i < |s| :: IsDigit(s[i])
  }

  function DigitChar(d: nat): (c: char)
    requires d < 10
    ensures IsDigit(c) && c as int - '0' as int == d
  {
    ('0' as int + d) as char
  }

  /** The digits of n, most significant first, without leading zeros. */
  function NatDigits(n: nat): (s: string)
    ensures |s| >= 1 && AllDigits(s)
    ensures s[0] == '0' ==> n == 0
  {
    if n < 10 then [DigitChar(n)] else NatDigits(n / 10) + [DigitChar(n % 10)]
  }

  /** An integer as fmt.Print writes it: a minus sign for negative values, then
      the digits of the magnitude. */
  function DecimalString(n: int): (r: string)
    ensures |r| >= 1 && (r[0] == '-' <==> n < 0)
    ensures n < 0 ==> |r| >= 2 && AllDigits(r[1..])
    ensures n >= 0 ==> AllDigits(r)
  {
    if n < 0 then
      var d := NatDigits(-n);
      assert ("-" + d)[1..] == d;
      "-" + d
    else NatDigits(n)
  }

  /** A decimal rendering never contains '/'. */
  lemma DecimalHasNoSlash(n: int)
    ensures '/' !in DecimalString(n)
  {
  }

  /** The value of a string of digits, most significant first. */
  function DigitsValue(s: string): nat
    requires AllDigits(s)
  {
    if s == [] then 0
    else 10 * DigitsValue(s[..|s| - 1]) + (s[|s| - 1] as int - '0' as int)
  }

  /** Reads back an optionally negative decimal number. */
  function ParseDecimal(s: string): Option<int> {
    if |s| > 1 && s[0] == '-' && AllDigits(s[1..]) then Some(-(DigitsValue(s[1..]) as int))
    else if |s| > 0 && AllDigits(s) then Some(DigitsValue(s))
    else None
  }

  lemma {:induction false} DigitsRoundTrip(n: nat)
    ensures DigitsValue(NatDigits(n)) == n
  {
    if n >= 10 {
      var s := NatDigits(n);
      assert s[..|s| - 1] == NatDigits(n / 10);
      DigitsRoundTrip(n / 10);
    }
  }

  /** Every integer is read back from its decimal rendering. */
  lemma DecimalRoundTrip(n: int)
    ensures ParseDecimal(DecimalString(n)) == Some(n)
  {
    if n < 0 {
      var d := NatDigits(-n);
      var s := "-" + d;
      assert s[1..] == d;
      DigitsRoundTrip(-n);
      assert ParseDecimal(s) == Some(-(DigitsValue(d) as int));
    } else {
      var d := NatDigits(n);
      assert IsDigit(d[0]);
      DigitsRoundTrip(n);
      assert ParseDecimal(d) == Some(DigitsValue(d));
    }
  }

  // ---------------------------------------------------------------------------
  // Permalinks

  const StatusHost: string := "https://twitter.com/"
  const StatusPath: string := "/status/"

  /** The URL printed for a tweet: host, screen name, "/status/", decimal id. */
  function Permalink(screenName: string, id: Int64): (url: string)
    ensures |url| > |StatusHost| + |screenName| + |StatusPath|
    ensures url[..|StatusHost|] == StatusHost
  {
    StatusHost + (screenName + (StatusPath + DecimalString(id as int)))
  }

  /** The first position of c in s, if any. */
  function IndexOf(s: string, c: char): (r: Option<nat>)
    ensures r.Some? ==> r.value < |s| && s[r.value] == c && c !in s[..r.value]
    ensures r.None? ==> c !in s
  {
    if s == [] then None
    else if s[0] == c then Some(0)
    else match IndexOf(s[1..], c)
      case None => None
      case Some(k) => assert s[..k + 1] == [s[0]] + s[1..][..k]; Some(k + 1)
  }

  lemma {:induction false} IndexOfFirst(a: string, b: string, c: char)
    requires c !in a && |b| > 0 && b[0] == c
    ensures IndexOf(a + b, c) == Some(|a|)
  {
    if a != [] {
      assert (a + b)[1..] == a[1..] + b;
      IndexOfFirst(a[1..], b, c);
    }
  }

  /** Splits a permalink back into screen name and id. */
  function ParsePermalink(url: string): Option<(string, int)> {
    if |url| < |StatusHost| || url[..|StatusHost|] != StatusHost then None
    else ParseAfterHost(url[|StatusHost|..])
  }

  /** The screen name runs up to the first '/'. */
  function ParseAfterHost(rest: string): Option<(string, int)> {
    match IndexOf(rest, '/')
    case None => None
    case Some(k) => ParseStatus(rest[..k], rest[k..])
  }

  /** After the screen name come "/status/" and the decimal id. */
  function ParseStatus(screenName: string, tail: string): Option<(string, int)> {
    if |tail| < |StatusPath| || tail[..|StatusPath|] != StatusPath then None
    else match ParseDecimal(tail[|StatusPath|..])
      case None => None
      case Some(id) => Some((screenName, id))
  }

  lemma StatusRoundTrip(screenName: string, id: Int64)
    ensures ParseStatus(screenName, StatusPath + DecimalString(id as int)) == Some((screenName, id as int))
  {
    var tail := StatusPath + DecimalString(id as int);
    assert tail[..|StatusPath|] == StatusPath;
    assert tail[|StatusPath|..] == DecimalString(id as int);
    DecimalRoundTrip(id as int);
  }

  lemma AfterHostRoundTrip(screenName: string, id: Int64)
    requires '/' !in screenName
    ensures ParseAfterHost(screenName + (StatusPath + DecimalString(id as int))) == Some((screenName, id as int))
  {
    var tail := StatusPath + DecimalString(id as int);
    var rest := screenName + tail;
    IndexOfFirst(screenName, tail, '/');
    assert rest[..|screenName|] == screenName;
    assert rest[|screenName|..] == tail;
    StatusRoundTrip(screenName, id);
  }

  /** A permalink gives back the screen name and id it was built from
      (screen names never contain '/'). */
  lemma PermalinkRoundTrip(screenName: string, id: Int64)
    requires '/' !in screenName
    ensures ParsePermalink(Permalink(screenName, id)) == Some((screenName, id as int))
  {
    var rest := screenName + (StatusPath + DecimalString(id as int));
    AfterHostRoundTrip(screenName, id);
    HostRoundTrip(rest);
  }

  lemma HostRoundTrip(rest: string)
    ensures ParsePermalink(StatusHost + rest) == ParseAfterHost(rest)
  {
    assert (StatusHost + rest)[..|StatusHost|] == StatusHost;
    assert (StatusHost + rest)[|StatusHost|..] == rest;
  }

  /** The '/' that ends "/status/" is the last '/' of a permalink. */
  lemma SlashesEndAtStatus(screenName: string, d: string)
    requires '/' !in d
    ensures var url := StatusHost + (screenName + (StatusPath + d));
      forall j | |StatusHost| + |screenName| + |StatusPath| <= j < |url| :: url[j] != '/'
  {
    var url := StatusHost + (screenName + (StatusPath + d));
    var start := |StatusHost| + |screenName| + |StatusPath|;
    forall j | start <= j < |url|
      ensures url[j] != '/'
    {
      assert url[j] == d[j - start];
    }
  }

  /** In equal permalinks the last '/' is at the same place, so neither screen
      name can be the longer one. */
  lemma NameLengthBound(n1: string, d1: string, n2: string, d2: string)
    requires '/' !in d1
    requires StatusHost + (n1 + (StatusPath + d1)) == StatusHost + (n2 + (StatusPath + d2))
    ensures |n2| <= |n1|
  {
    var url := StatusHost + (n2 + (StatusPath + d2));
    SlashesEndAtStatus(n1, d1);
    var q := |StatusHost| + |n2| + |StatusPath| - 1;
    assert url[q] == StatusPath[|StatusPath| - 1];
  }

  /** Distinct tweets (by screen name and id) get distinct permalinks, whatever
      runes the screen names hold. */
  lemma PermalinkInjective(n1: string, id1: Int64, n2: string, id2: Int64)
    requires Permalink(n1, id1) == Permalink(n2, id2)
    ensures n1 == n2 && id1 == id2
  {
    var d1, d2 := DecimalString(id1 as int), DecimalString(id2 as int);
    var url := Permalink(n1, id1);
    DecimalHasNoSlash(id1 as int);
    DecimalHasNoSlash(id2 as int);
    NameLengthBound(n1, d1, n2, d2);
    NameLengthBound(n2, d2, n1, d1);
    var h := |StatusHost|;
    assert url[h..h + |n1|] == n1;
    assert url[h..h + |n2|] == n2;
    var start := h + |n1| + |StatusPath|;
    assert url[start..] == d1;
    assert url[start..] == d2;
    DecimalRoundTrip(id1 as int);
    DecimalRoundTrip(id2 as int);
  }
}
