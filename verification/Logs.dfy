/**
 The log tail: a ring of the newest lines, and live streams that join it without a gap. A push and a
 subscription each happen under one hold of the buffer's lock; receivers read on their own, at any pace.
 */
module Logs {
  import opened Wrappers

  datatype Level = Trace | Debug | Info | Warn | Error

  datatype Line = Line(number: nat, at: nat, level: Level, target: string, message: string)

  // ---- Selecting lines ----

  datatype Filter = Filter(minLevel: Option<Level>, query: Option<string>)

  const EVERYTHING: Filter := Filter(None, None)

  function Rank(l: Level): nat {
    match l case Trace => 0 case Debug => 1 case Info => 2 case Warn => 3 case Error => 4
  }

  /** Lower case of the Latin letters. */
  function Lower(s: string): string {
    if s == [] then [] else [if 'A' <= s[0] <= 'Z' then s[0] - 'A' + 'a' else s[0]] + Lower(s[1..])
  }

  predicate Contains(s: string, part: string) {
    part <= s || (s != [] && Contains(s[1..], part))
  }

  /** The level is high enough and the query, already in lower case, occurs in the message or the target. */
  predicate Matches(f: Filter, l: Line) {
    && (f.minLevel.Some? ==> Rank(f.minLevel.value) <= Rank(l.level))
    && (f.query.Some? ==> Contains(Lower(l.message), f.query.value) || Contains(Lower(l.target), f.query.value))
  }

  lemma {:induction false} LowerAt(s: string, i: nat)
    requires i < |s|
    ensures |Lower(s)| == |s| && Lower(s)[i] == (if 'A' <= s[i] <= 'Z' then s[i] - 'A' + 'a' else s[i])
  {
    if i > 0 {
      LowerAt(s[1..], i - 1);
    } else if |s| > 1 {
      LowerAt(s[1..], 0);
    }
  }

  /** The part stands somewhere in the text. */
  ghost predicate OccursIn(s: string, part: string) {
    exists i :: 0 <= i <= |s| && part <= s[i..]
  }

  lemma {:induction false} ContainsMeans(s: string, part: string)
    ensures Contains(s, part) <==> OccursIn(s, part)
  {
    assert s[0..] == s;
    if s != [] {
      ContainsMeans(s[1..], part);
      assert forall i | 0 < i <= |s| :: s[i..] == s[1..][i - 1..];
      if OccursIn(s[1..], part) {
        var i :| 0 <= i <= |s[1..]| && part <= s[1..][i..];
        assert part <= s[i + 1..];
      }
    }
  }

  /** A line matches when its level is no lower and the query occurs somewhere in its message or target, in lower case. */
  lemma MatchesMeans(f: Filter, l: Line)
    ensures Matches(f, l) <==>
      && (f.minLevel.Some? ==> Rank(l.level) >= Rank(f.minLevel.value))
      && (f.query.Some? ==> OccursIn(Lower(l.message), f.query.value) || OccursIn(Lower(l.target), f.query.value))
    ensures Rank(Trace) < Rank(Debug) < Rank(Info) < Rank(Warn) < Rank(Error)
  {
    if f.query.Some? {
      ContainsMeans(Lower(l.message), f.query.value);
      ContainsMeans(Lower(l.target), f.query.value);
    }
  }

  /** A selection has exactly the lines after the cursor that match, in the order of the buffer. */
  lemma {:induction false} SelectMeans(lines: seq<Line>, f: Filter, after: nat, l: Line)
    ensures l in Select(lines, f, after) <==> l in lines && l.number > after && Matches(f, l)
  {
    if lines != [] {
      SelectMeans(lines[1..], f, after, l);
      assert l in lines <==> l == lines[0] || l in lines[1..];
    }
  }

  lemma {:induction false} SelectAscends(lines: seq<Line>, f: Filter, after: nat)
    requires Ascending(lines)
    ensures Ascending(Select(lines, f, after))
  {
    if lines != [] {
      SelectAscends(lines[1..], f, after);
      forall i | 0 <= i < |Select(lines[1..], f, after)|
        ensures Select(lines[1..], f, after)[i].number > lines[0].number
      {
        SelectMember(lines[1..], f, after, i);
      }
    }
  }

  predicate Keeps(f: Filter, after: nat, l: Line) { l.number > after && Matches(f, l) }

  function Select(lines: seq<Line>, f: Filter, after: nat): (r: seq<Line>)
    ensures |r| <= |lines|
  {
    if lines == [] then []
    else if Keeps(f, after, lines[0]) then [lines[0]] + Select(lines[1..], f, after)
    else Select(lines[1..], f, after)
  }

  lemma {:induction false} SelectMember(lines: seq<Line>, f: Filter, after: nat, k: nat)
    requires k < |Select(lines, f, after)|
    ensures Select(lines, f, after)[k] in lines && Keeps(f, after, Select(lines, f, after)[k])
  {
    if Keeps(f, after, lines[0]) {
      if k > 0 { SelectMember(lines[1..], f, after, k - 1); }
    } else {
      SelectMember(lines[1..], f, after, k);
    }
  }

  function Take(lines: seq<Line>, limit: nat): seq<Line> {
    if |lines| <= limit then lines else lines[..limit]
  }

  function Reverse(lines: seq<Line>): seq<Line> {
    if lines == [] then [] else Reverse(lines[1..]) + [lines[0]]
  }

  /** The first matches after a cursor. */
  function LinesAfter(lines: seq<Line>, f: Filter, after: nat, limit: nat): seq<Line> {
    Take(Select(lines, f, after), limit)
  }

  /** The newest matches, oldest first: read backwards, cut off, and turned round. */
  function NewestLines(lines: seq<Line>, f: Filter, limit: nat): seq<Line> {
    Reverse(Take(Select(Reverse(lines), f, 0), limit))
  }

  lemma {:induction false} SelectAppend(a: seq<Line>, b: seq<Line>, f: Filter, after: nat)
    ensures Select(a + b, f, after) == Select(a, f, after) + Select(b, f, after)
  {
    if a == [] {
      assert a + b == b;
    } else {
      assert (a + b)[1..] == a[1..] + b;
      SelectAppend(a[1..], b, f, after);
    }
  }

  lemma {:induction false} ReverseAppend(a: seq<Line>, b: seq<Line>)
    ensures Reverse(a + b) == Reverse(b) + Reverse(a)
  {
    if a == [] {
      assert a + b == b;
    } else {
      assert (a + b)[1..] == a[1..] + b;
      ReverseAppend(a[1..], b);
    }
  }

  lemma {:induction false} ReverseTwice(a: seq<Line>)
    ensures Reverse(Reverse(a)) == a && |Reverse(a)| == |a|
  {
    if a != [] {
      ReverseTwice(a[1..]);
      ReverseAppend(Reverse(a[1..]), [a[0]]);
      assert Reverse([a[0]]) == [a[0]];
    }
  }

  lemma {:induction false} SelectReverse(lines: seq<Line>, f: Filter, after: nat)
    ensures Select(Reverse(lines), f, after) == Reverse(Select(lines, f, after))
  {
    if lines != [] {
      SelectReverse(lines[1..], f, after);
      SelectAppend(Reverse(lines[1..]), [lines[0]], f, after);
      ReverseAppend([lines[0]], Select(lines[1..], f, after));
      assert Reverse([lines[0]]) == [lines[0]];
    }
  }

  /** The newest matches are a suffix of all matches, in their order. */
  lemma NewestAreLast(lines: seq<Line>, f: Filter, limit: nat)
    ensures var all := Select(lines, f, 0);
      NewestLines(lines, f, limit) == if |all| <= limit then all else all[|all| - limit..]
  {
    var all := Select(lines, f, 0);
    SelectReverse(lines, f, 0);
    ReverseTwice(all);
    if |all| > limit {
      var older, newer := all[..|all| - limit], all[|all| - limit..];
      assert all == older + newer;
      ReverseAppend(older, newer);
      ReverseTwice(newer);
      assert Reverse(all)[..limit] == Reverse(newer);
    }
  }

  // ---- Numbered lines ----

  /** Line `i` of the whole history has number `i + 1`. */
  ghost predicate Numbered(pushed: seq<Line>) {
    forall i | 0 <= i < |pushed| :: pushed[i].number == i + 1
  }

  /** The last `capacity` lines ever pushed. */
  function Tail(pushed: seq<Line>, capacity: nat): seq<Line> {
    if |pushed| <= capacity then pushed else pushed[|pushed| - capacity..]
  }

  /** Where the retained lines after a cursor begin in the history. */
  function StartOf(n: nat, capacity: nat, after: nat): nat {
    var oldest := if n <= capacity then 0 else n - capacity;
    if after <= oldest then oldest else if after <= n then after else n
  }

  lemma {:induction false} SelectAll(lines: seq<Line>, after: nat)
    requires forall i | 0 <= i < |lines| :: lines[i].number > after
    ensures Select(lines, EVERYTHING, after) == lines
  {
    if lines != [] { SelectAll(lines[1..], after); }
  }

  lemma {:induction false} SelectNone(lines: seq<Line>, after: nat)
    requires forall i | 0 <= i < |lines| :: lines[i].number <= after
    ensures Select(lines, EVERYTHING, after) == []
  {
    if lines != [] { SelectNone(lines[1..], after); }
  }

  /** A backlog is a contiguous piece of the history that ends at the newest line. */
  lemma BacklogIsSuffix(pushed: seq<Line>, capacity: nat, after: nat)
    requires Numbered(pushed)
    ensures StartOf(|pushed|, capacity, after) <= |pushed|
    ensures Select(Tail(pushed, capacity), EVERYTHING, after) == pushed[StartOf(|pushed|, capacity, after)..]
  {
    var tail, start := Tail(pushed, capacity), StartOf(|pushed|, capacity, after);
    var offset := |pushed| - |tail|;
    var older, newer := tail[..start - offset], tail[start - offset..];
    assert tail == older + newer && newer == pushed[start..];
    forall i | 0 <= i < |older| ensures older[i].number <= after { assert older[i] == pushed[offset + i]; }
    forall i | 0 <= i < |newer| ensures newer[i].number > after { assert newer[i] == pushed[start + i]; }
    SelectAppend(older, newer, EVERYTHING, after);
    SelectNone(older, after);
    SelectAll(newer, after);
  }

  // ---- The buffer and its streams ----

  type StreamId = nat

  /** A stream: its cursor, the number of lines pushed when it subscribed, what it has shown, and where its receiver stands. */
  datatype Stream = Stream(after: nat, joined: nat, shown: seq<Line>, next: nat, lagged: bool)

  datatype Received = Next(line: Line) | Empty | Lagged(missed: nat)

  /** A stream that never lagged has shown the lines retained after its cursor when it joined, and every push since up to its receiver. */
  ghost predicate StreamOk(pushed: seq<Line>, capacity: nat, s: Stream) {
    && s.joined <= s.next <= |pushed|
    && StartOf(s.joined, capacity, s.after) <= s.joined
    && (!s.lagged ==> s.shown == pushed[StartOf(s.joined, capacity, s.after)..s.next])
  }

  lemma OneMoreShown(pushed: seq<Line>, capacity: nat, s: Stream)
    requires StreamOk(pushed, capacity, s) && s.next < |pushed|
    ensures StreamOk(pushed, capacity, s.(shown := s.shown + [pushed[s.next]], next := s.next + 1))
  {
    var first := StartOf(s.joined, capacity, s.after);
    assert pushed[first..s.next] + [pushed[s.next]] == pushed[first..s.next + 1];
  }

  class LogBuffer {
    const capacity: nat
    const channel: nat
    var lines: seq<Line>
    var newest: nat
    var streams: map<StreamId, Stream>
    /** Everything ever pushed and sent; the channel itself keeps the last `channel` of it. */
    var pushed: seq<Line>

    ghost predicate Valid()
      reads this
    {
      && capacity >= 1 && channel >= 1
      && Numbered(pushed) && newest == |pushed|
      && lines == Tail(pushed, capacity)
      && (forall id | id in streams :: StreamOk(pushed, capacity, streams[id]))
    }

    constructor (lines: nat, channel: nat)
      ensures Valid() && pushed == [] && streams == map[]
      ensures capacity == (if lines < 1 then 1 else lines) && this.channel == (if channel < 1 then 1 else channel)
    {
      capacity := if lines < 1 then 1 else lines;
      this.channel := if channel < 1 then 1 else channel;
      this.lines, newest, streams, pushed := [], 0, map[], [];
    }

    /** Stores a line under the next number, drops the oldest beyond the capacity, and sends it to the streams. */
    method Push(at: nat, level: Level, target: string, message: string) returns (number: nat)
      requires Valid()
      modifies this
      ensures Valid() && number == |old(pushed)| + 1
      ensures pushed == old(pushed) + [Line(number, at, level, target, message)]
      ensures streams == old(streams)
    {
      newest := newest + 1;
      number := newest;
      var line := Line(number, at, level, target, message);
      lines := lines + [line];
      ghost var all := pushed + [line];
      assert lines == all[|all| - |lines|..];
      while |lines| > capacity
        invariant pushed == old(pushed) && streams == old(streams) && newest == number
        invariant |lines| <= |all| && lines == all[|all| - |lines|..]
        invariant |all| >= capacity ==> |lines| >= capacity
        invariant |all| < capacity ==> |lines| == |all|
      {
        lines := lines[1..];
      }
      pushed := pushed + [line];
      forall id | id in streams
        ensures StreamOk(pushed, capacity, streams[id])
      {
        var s := streams[id];
        var first := StartOf(s.joined, capacity, s.after);
        assert pushed[first..s.next] == old(pushed)[first..s.next];
      }
    }

    /** The lines after the cursor and a receiver, under one lock: the stream begins with a piece that ends at the newest line. */
    method SubscribeAfter(id: StreamId, after: nat) returns (backlog: seq<Line>)
      requires Valid() && id !in streams
      modifies this`streams
      ensures Valid()
      ensures backlog == Select(lines, EVERYTHING, after)
      ensures backlog == pushed[StartOf(|pushed|, capacity, after)..]
      ensures streams == old(streams)[id := Stream(after, |pushed|, backlog, |pushed|, false)]
    {
      backlog := Select(lines, EVERYTHING, after);
      BacklogIsSuffix(pushed, capacity, after);
      assert pushed[StartOf(|pushed|, capacity, after)..|pushed|] == backlog;
      streams := streams[id := Stream(after, |pushed|, backlog, |pushed|, false)];
    }

    /** A receiver takes the next line, unless the channel has dropped it: then it learns how many it missed. */
    method Receive(id: StreamId) returns (r: Received)
      requires Valid() && id in streams
      modifies this`streams
      ensures Valid() && id in streams && streams.Keys == old(streams).Keys
      ensures forall k | k in streams && k != id :: streams[k] == old(streams)[k]
      ensures var s := old(streams)[id];
        if s.next == |pushed| then r == Empty && streams[id] == s
        else if |pushed| - s.next > channel then
          r == Lagged(|pushed| - channel - s.next) && streams[id] == s.(next := |pushed| - channel, lagged := true)
        else r == Next(pushed[s.next]) && streams[id] == s.(shown := s.shown + [pushed[s.next]], next := s.next + 1)
    {
      var s := streams[id];
      if s.next == |pushed| {
        r := Empty;
      } else if |pushed| - s.next > channel {
        r := Lagged(|pushed| - channel - s.next);
        streams := streams[id := s.(next := |pushed| - channel, lagged := true)];
      } else {
        r := Next(pushed[s.next]);
        OneMoreShown(pushed, capacity, s);
        streams := streams[id := s.(shown := s.shown + [pushed[s.next]], next := s.next + 1)];
      }
    }

    /** Lists every retained match after a cursor, page by page. */
    method AllPages(f: Filter, after: nat, limit: nat) returns (all: seq<Line>)
      requires Valid() && limit > 0
      ensures all == Select(lines, f, after)
    {
      all := [];
      var cursor := after;
      assert Ascending(lines);
      while true
        invariant Select(lines, f, after) == all + Select(lines, f, cursor)
        decreases |Select(lines, f, cursor)|
      {
        var page := LinesAfter(lines, f, cursor, limit);
        if |page| < limit { return all + page; }
        PageAdvances(lines, f, cursor, limit);
        all := all + page;
        cursor := page[|page| - 1].number;
      }
    }
  }

  ghost predicate Ascending(lines: seq<Line>) {
    forall i, k | 0 <= i < k < |lines| :: lines[i].number < lines[k].number
  }

  lemma {:induction false} SelectAgrees(lines: seq<Line>, f: Filter, a: nat, b: nat)
    requires forall i | 0 <= i < |lines| :: lines[i].number > a && lines[i].number > b
    ensures Select(lines, f, a) == Select(lines, f, b)
  {
    if lines != [] { SelectAgrees(lines[1..], f, a, b); }
  }

  /** The matches after a match are the rest of the matches. */
  lemma {:induction false} MatchesAfterMatch(lines: seq<Line>, f: Filter, after: nat, k: nat)
    requires Ascending(lines) && k < |Select(lines, f, after)|
    ensures var all := Select(lines, f, after);
      Select(lines, f, all[k].number) == all[k + 1..]
  {
    var x, rest := lines[0], lines[1..];
    var tail := Select(rest, f, after);
    if Keeps(f, after, x) && k == 0 {
      SelectAgrees(rest, f, x.number, after);
    } else {
      var k' := if Keeps(f, after, x) then k - 1 else k;
      SelectMember(rest, f, after, k');
      MatchesAfterMatch(rest, f, after, k');
    }
  }

  /** A full page and the pages after its last line list the same matches. */
  lemma PageAdvances(lines: seq<Line>, f: Filter, cursor: nat, limit: nat)
    requires Ascending(lines) && 0 < limit <= |LinesAfter(lines, f, cursor, limit)|
    ensures var page := LinesAfter(lines, f, cursor, limit);
      && page[|page| - 1].number > cursor
      && Select(lines, f, cursor) == page + Select(lines, f, page[|page| - 1].number)
  {
    var all := Select(lines, f, cursor);
    MatchesAfterMatch(lines, f, cursor, limit - 1);
    SelectMember(lines, f, cursor, limit - 1);
    assert all == all[..limit] + all[limit..];
  }

  /**
   What a stream that never lagged has shown, in every interleaving: the lines the buffer retained after its cursor
   when it joined, then every later push up to its receiver, once each and in order.
   */
  lemma NoGap(b: LogBuffer, id: StreamId)
    requires b.Valid() && id in b.streams && !b.streams[id].lagged
    ensures var s := b.streams[id];
      && s.joined <= s.next <= |b.pushed|
      && s.shown == Select(Tail(b.pushed[..s.joined], b.capacity), EVERYTHING, s.after) + b.pushed[s.joined..s.next]
      && forall i | 0 <= i < |s.shown| - 1 :: s.shown[i + 1].number == s.shown[i].number + 1
  {
    var s := b.streams[id];
    assert StreamOk(b.pushed, b.capacity, s);
    var first, before := StartOf(s.joined, b.capacity, s.after), b.pushed[..s.joined];
    BacklogIsSuffix(before, b.capacity, s.after);
    assert b.pushed[first..s.next] == before[first..] + b.pushed[s.joined..s.next];
  }

  /** The ring holds exactly the newest lines, numbered without a gap. */
  lemma RingHoldsNewest(b: LogBuffer)
    requires b.Valid()
    ensures |b.lines| == if |b.pushed| <= b.capacity then |b.pushed| else b.capacity
    ensures forall i | 0 <= i < |b.lines| :: b.lines[i].number == |b.pushed| - |b.lines| + i + 1
  {
  }
}
