// The HTTP health monitor: responses are cut into periods, and failures set the return value.

module HttpTracker {
  import opened Lists
  import opened Options

  type Clock = int

  const OK := 200
  const FAILURE := 3

  /** One request of a URL: the code it got (500 when it failed), whether the entry asks to exit on
      failure, and the time at which the loop records it. */
  datatype Response = Response(url: string, code: int, exitOnFailure: bool, at: Clock)

  datatype Entry = Entry(code: int, start: Clock)

  datatype Record = Record(url: string, status: bool, code: int, start: Clock, end: Clock, duration: int)

  function Stamp(url: string, e: Entry, end: Clock): Record
  {
    Record(url, e.code == OK, e.code, e.start, end, end - e.start)
  }

  /** `health_check_tracker` in insertion order, `health_check_telemetry`, and `ret_value`. */
  datatype Tracking = Tracking(entries: map<string, Entry>, order: seq<string>, telemetry: seq<Record>, ret: int)

  function Observe(t: Tracking, r: Response): Tracking
  {
    if r.url !in t.entries then
      Tracking(t.entries[r.url := Entry(r.code, r.at)], t.order + [r.url], t.telemetry,
               if r.code != OK && r.exitOnFailure && t.ret == 0 then FAILURE else t.ret)
    else if r.code != t.entries[r.url].code then
      Tracking(t.entries - {r.url}, Without(t.order, r.url),
               t.telemetry + [Stamp(r.url, t.entries[r.url], r.at)], t.ret)
    else t
  }

  function Track(rs: seq<Response>): Tracking
  {
    if rs == [] then Tracking(map[], [], [], 0) else Observe(Track(rs[..|rs| - 1]), rs[|rs| - 1])
  }

  function Finals(entries: map<string, Entry>, order: seq<string>, end: Clock): seq<Record>
    requires forall u :: u in order ==> u in entries
  {
    if order == [] then []
    else Finals(entries, order[..|order| - 1], end) + [Stamp(order[|order| - 1], entries[order[|order| - 1]], end)]
  }

  ghost predicate WellKept(t: Tracking)
  {
    && (forall u :: u in t.entries <==> u in t.order)
    && (forall i, j :: 0 <= i < j < |t.order| ==> t.order[i] != t.order[j])
  }

  lemma {:induction false} TrackKeeps(rs: seq<Response>)
    ensures WellKept(Track(rs))
  {
    if rs != [] {
      TrackKeeps(rs[..|rs| - 1]);
      WithoutKeeps(Track(rs[..|rs| - 1]).order, rs[|rs| - 1].url);
    }
  }

  /** The batch the worker puts on its queue. */
  function Published(rs: seq<Response>, end: Clock): seq<Record>
  {
    TrackKeeps(rs);
    Track(rs).telemetry + Finals(Track(rs).entries, Track(rs).order, end)
  }

  class HttpMonitor {
    var tracker: map<string, Entry>
    var order: seq<string>
    var telemetry: seq<Record>
    var retValue: int

    ghost function View(): Tracking reads this { Tracking(tracker, order, telemetry, retValue) }

    constructor ()
      ensures View() == Tracking(map[], [], [], 0)
    {
      tracker, order, telemetry, retValue := map[], [], [], 0;
    }

    /** The body of the loop over the configured URLs, once the response is there. */
    method TrackStatus(r: Response)
      modifies this
      ensures View() == Observe(old(View()), r)
    {
      if r.url !in tracker {
        tracker := tracker[r.url := Entry(r.code, r.at)];
        order := order + [r.url];
        if r.code != OK {
          if r.exitOnFailure && retValue == 0 {
            retValue := FAILURE;
          }
        }
      } else {
        if r.code != tracker[r.url].code {
          var previous := tracker[r.url];
          telemetry := telemetry
            + [Record(r.url, previous.code == OK, previous.code, previous.start, r.at, r.at - previous.start)];
          tracker := tracker - {r.url};
          order := Without(order, r.url);
        }
      }
    }

    /** The loop over the configured URLs: one response of each. */
    method RunPass(pass: seq<Response>, ghost done: seq<Response>)
      requires View() == Track(done)
      modifies this
      ensures View() == Track(done + pass)
    {
      hide Track, Observe;
      assert done + pass[..0] == done;
      for v := 0 to |pass|
        invariant View() == Track(done + pass[..v])
      {
        TrackSnoc(done + pass[..v], pass[v]);
        assert done + pass[..v + 1] == done + pass[..v] + [pass[v]];
        TrackStatus(pass[v]);
      }
      assert pass[..|pass|] == pass;
    }

    /** `run_health_check`: `passes` are the rounds of responses before the loop is stopped. */
    method RunHealthCheck(passes: seq<seq<Response>>, end: Clock) returns (published: seq<Record>)
      requires View() == Tracking(map[], [], [], 0)
      modifies this
      ensures published == Published(Flatten(passes), end)
      ensures retValue == Track(Flatten(passes)).ret
    {
      hide Track, Observe, Finals;
      assert Flatten(passes[..0]) == [];
      NothingTracked();
      for p := 0 to |passes|
        invariant View() == Track(Flatten(passes[..p]))
      {
        RunPass(passes[p], Flatten(passes[..p]));
        assert passes[..p + 1][..p] == passes[..p];
      }
      assert passes[..|passes|] == passes;
      TrackKeeps(Flatten(passes));
      published := CloseAll(end);
    }

    /** The loop that records the final status of every open entry. */
    method CloseAll(end: Clock) returns (published: seq<Record>)
      requires WellKept(View())
      modifies this
      ensures published == old(telemetry) + Finals(old(tracker), old(order), end)
      ensures retValue == old(retValue)
    {
      ghost var t := View();
      for i := 0 to |order|
        invariant tracker == t.entries && order == t.order && retValue == t.ret
        invariant telemetry == t.telemetry + Finals(t.entries, order[..i], end)
      {
        assert order[..i + 1][..i] == order[..i];
        telemetry := telemetry + [Stamp(order[i], tracker[order[i]], end)];
      }
      assert order[..|order|] == order;
      published := telemetry;
    }
  }

  function Flatten(passes: seq<seq<Response>>): seq<Response>
  {
    if passes == [] then [] else Flatten(passes[..|passes| - 1]) + passes[|passes| - 1]
  }

  lemma NothingTracked()
    ensures Track([]) == Tracking(map[], [], [], 0)
  {
  }

  lemma TrackSnoc(rs: seq<Response>, r: Response)
    ensures Track(rs + [r]) == Observe(Track(rs), r)
  {
    assert (rs + [r])[..|rs|] == rs;
  }

  // ---- Greedy segmentation of the responses of one URL

  /** A finished segment: responses of one code, and the response that ended it, which belongs to
      no segment. */
  datatype Segment = Segment(body: seq<Response>, closer: Response)

  /** The finished segments, and the one still open (empty: the next response opens one). */
  datatype Cut = Cut(finished: seq<Segment>, open: seq<Response>)

  function Extend(c: Cut, r: Response): Cut
  {
    if c.open == [] then c.(open := [r])
    else if c.open[0].code == r.code then c.(open := c.open + [r])
    else Cut(c.finished + [Segment(c.open, r)], [])
  }

  function Greedy(rs: seq<Response>): Cut
  {
    if rs == [] then Cut([], []) else Extend(Greedy(rs[..|rs| - 1]), rs[|rs| - 1])
  }

  function Spread(finished: seq<Segment>): seq<Response>
  {
    if finished == [] then []
    else
      var last := finished[|finished| - 1];
      Spread(finished[..|finished| - 1]) + last.body + [last.closer]
  }

  predicate SameCode(body: seq<Response>)
  {
    forall i :: 0 <= i < |body| ==> body[i].code == body[0].code
  }

  /** Segments in which every response has the segment's code and the closer another one. */
  ghost predicate Proper(c: Cut)
  {
    && (forall i :: 0 <= i < |c.finished| ==>
          && c.finished[i].body != [] && SameCode(c.finished[i].body)
          && c.finished[i].closer.code != c.finished[i].body[0].code)
    && SameCode(c.open)
  }

  /** Every response is in exactly one segment, with that segment's code, or closed one. */
  lemma {:induction false} GreedyIsProper(rs: seq<Response>)
    ensures Proper(Greedy(rs)) && Spread(Greedy(rs).finished) + Greedy(rs).open == rs
  {
    hide Greedy, Extend, Proper, Spread;
    if rs == [] {
      NoCut();
    } else {
      var init, r := rs[..|rs| - 1], rs[|rs| - 1];
      GreedyIsProper(init);
      GreedySnoc(init, r);
      ExtendProper(Greedy(init), r);
      assert rs == init + [r];
    }
  }

  lemma NoCut()
    ensures Greedy([]) == Cut([], []) && Proper(Cut([], [])) && Spread([]) == []
  {
  }

  lemma ExtendProper(c: Cut, r: Response)
    requires Proper(c)
    ensures var c' := Extend(c, r); Proper(c') && Spread(c'.finished) + c'.open == Spread(c.finished) + c.open + [r]
  {
    var c' := Extend(c, r);
    if c.open != [] && c.open[0].code != r.code {
      assert c'.finished[..|c.finished|] == c.finished;
      assert Spread(c'.finished) == Spread(c.finished) + c.open + [r];
    }
  }

  /** A cut without its last response, which puts it back. */
  lemma WithoutLast(c: Cut) returns (shorter: Cut, r: Response)
    requires Proper(c) && (c.open != [] || c.finished != [])
    ensures Proper(shorter) && Extend(shorter, r) == c
    ensures Spread(c.finished) + c.open == Spread(shorter.finished) + shorter.open + [r]
  {
    if c.open != [] {
      var n := |c.open| - 1;
      shorter, r := c.(open := c.open[..n]), c.open[n];
      assert c.open == c.open[..n] + [r] && r.code == c.open[0].code;
    } else {
      var n := |c.finished| - 1;
      var last := c.finished[n];
      shorter, r := Cut(c.finished[..n], last.body), last.closer;
      assert c.finished == c.finished[..n] + [last];
      assert Spread(c.finished) == Spread(c.finished[..n]) + last.body + [r];
    }
  }

  /** There is no other such cut. */
  lemma {:induction false} ProperIsUnique(c: Cut)
    requires Proper(c)
    ensures Greedy(Spread(c.finished) + c.open) == c
    decreases |Spread(c.finished) + c.open|
  {
    hide Greedy, Proper, Extend, Spread;
    if c.open == [] && c.finished == [] {
      NoCut();
      assert Spread(c.finished) + c.open == [];
    } else {
      var shorter, r := WithoutLast(c);
      ProperIsUnique(shorter);
      GreedySnoc(Spread(shorter.finished) + shorter.open, r);
    }
  }

  lemma GreedySnoc(rs: seq<Response>, r: Response)
    ensures Greedy(rs + [r]) == Extend(Greedy(rs), r)
  {
    assert (rs + [r])[..|rs|] == rs;
  }

  function SegmentRecord(url: string, body: seq<Response>, end: Clock): Record
    requires body != []
  {
    Stamp(url, Entry(body[0].code, body[0].at), end)
  }

  /** One record per segment; the open one ends when monitoring does. */
  function Finished(url: string, finished: seq<Segment>): seq<Record>
    requires forall i :: 0 <= i < |finished| ==> finished[i].body != []
  {
    if finished == [] then []
    else
      var last := finished[|finished| - 1];
      Finished(url, finished[..|finished| - 1]) + [SegmentRecord(url, last.body, last.closer.at)]
  }

  function Stream(rs: seq<Response>, url: string): seq<Response>
  {
    if rs == [] then []
    else Stream(rs[..|rs| - 1], url) + (if rs[|rs| - 1].url == url then [rs[|rs| - 1]] else [])
  }

  function RecordsOf(records: seq<Record>, url: string): seq<Record>
  {
    if records == [] then []
    else RecordsOf(records[..|records| - 1], url)
         + (if records[|records| - 1].url == url then [records[|records| - 1]] else [])
  }

  lemma RecordsOfSnoc(records: seq<Record>, r: Record, url: string)
    ensures RecordsOf(records + [r], url) == RecordsOf(records, url) + (if r.url == url then [r] else [])
  {
    assert (records + [r])[..|records|] == records;
  }

  lemma {:induction false} RecordsOfJoin(a: seq<Record>, b: seq<Record>, url: string)
    ensures RecordsOf(a + b, url) == RecordsOf(a, url) + RecordsOf(b, url)
  {
    if b == [] {
      assert a + b == a;
    } else {
      RecordsOfJoin(a, b[..|b| - 1], url);
      assert (a + b)[..|a + b| - 1] == a + b[..|b| - 1];
    }
  }

  /** What the tracker holds about a URL whose responses so far are cut as `c`. */
  ghost predicate Tracks(t: Tracking, url: string, c: Cut)
  {
    && Proper(c)
    && RecordsOf(t.telemetry, url) == Finished(url, c.finished)
    && (url in t.entries <==> c.open != [])
    && (c.open != [] ==> t.entries[url] == Entry(c.open[0].code, c.open[0].at))
  }

  lemma OneResponse(t: Tracking, url: string, c: Cut, r: Response)
    requires Tracks(t, url, c)
    ensures Tracks(Observe(t, r), url, if r.url == url then Extend(c, r) else c)
  {
    hide RecordsOf, Finished, Without, Proper, Spread, Stamp;
    ExtendProper(c, r);
    if r.url in t.entries && r.code != t.entries[r.url].code {
      RecordsOfSnoc(t.telemetry, Stamp(r.url, t.entries[r.url], r.at), url);
      StampUrl(r.url, t.entries[r.url], r.at);
      if r.url == url {
        BodiesNonempty(c);
        FinishedSnoc(url, c.finished, Segment(c.open, r));
      }
    }
  }

  lemma StampUrl(url: string, e: Entry, end: Clock)
    ensures Stamp(url, e, end).url == url
  {
  }

  lemma BodiesNonempty(c: Cut)
    requires Proper(c)
    ensures forall i :: 0 <= i < |c.finished| ==> c.finished[i].body != []
  {
  }

  lemma FinishedSnoc(url: string, finished: seq<Segment>, s: Segment)
    requires s.body != [] && forall i :: 0 <= i < |finished| ==> finished[i].body != []
    ensures forall i :: 0 <= i <= |finished| ==> (finished + [s])[i].body != []
    ensures Finished(url, finished + [s]) ==
            Finished(url, finished) + [Stamp(url, Entry(s.body[0].code, s.body[0].at), s.closer.at)]
  {
    assert (finished + [s])[..|finished|] == finished;
  }

  lemma {:induction false} TrackIsGreedy(rs: seq<Response>, url: string)
    ensures Tracks(Track(rs), url, Greedy(Stream(rs, url)))
  {
    if rs != [] {
      var init, r := rs[..|rs| - 1], rs[|rs| - 1];
      TrackIsGreedy(init, url);
      var mine := Stream(init, url);
      OneResponse(Track(init), url, Greedy(mine), r);
      assert (mine + [r])[..|mine|] == mine;
      assert mine + [] == mine;
    }
  }

  lemma {:induction false} FinalsOf(entries: map<string, Entry>, order: seq<string>, end: Clock, url: string)
    requires forall u :: u in order ==> u in entries
    requires forall i, j :: 0 <= i < j < |order| ==> order[i] != order[j]
    ensures RecordsOf(Finals(entries, order, end), url) ==
            if url in order then [Stamp(url, entries[url], end)] else []
  {
    if order != [] {
      var init, last := order[..|order| - 1], order[|order| - 1];
      assert order == init + [last];
      assert last !in init;
      FinalsOf(entries, init, end, url);
      FinalsSnoc(entries, order, end);
      hide Finals, Stamp, RecordsOf;
      StampUrl(last, entries[last], end);
      RecordsOfSnoc(Finals(entries, init, end), Stamp(last, entries[last], end), url);
    }
  }

  lemma FinalsSnoc(entries: map<string, Entry>, order: seq<string>, end: Clock)
    requires order != [] && forall u :: u in order ==> u in entries
    ensures var last := order[|order| - 1];
            Finals(entries, order, end) ==
              Finals(entries, order[..|order| - 1], end) + [Stamp(last, entries[last], end)]
  {
  }

  /** The published records of a URL are those of the greedy segmentation of its responses. */
  lemma PublishedIsGreedy(rs: seq<Response>, end: Clock, url: string)
    ensures var c := Greedy(Stream(rs, url));
            && Proper(c)
            && RecordsOf(Published(rs, end), url) ==
               Finished(url, c.finished) + (if c.open == [] then [] else [SegmentRecord(url, c.open, end)])
  {
    var t := Track(rs);
    TrackKeeps(rs);
    TrackIsGreedy(rs, url);
    RecordsOfJoin(t.telemetry, Finals(t.entries, t.order, end), url);
    FinalsOf(t.entries, t.order, end, url);
  }

  // ---- The published records of one URL, field by field

  /** The record of a segment of responses that was over at `end`. */
  predicate Describes(p: Record, url: string, body: seq<Response>, end: Clock)
  {
    && body != []
    && p.url == url && p.code == body[0].code && (p.status <==> body[0].code == 200)
    && p.start == body[0].at && p.end == end && p.duration == p.end - p.start
  }

  /** One record for each finished segment, up to its closer, and one for the open one, up to the end. */
  ghost predicate DescribeCut(records: seq<Record>, url: string, c: Cut, end: Clock)
  {
    && |records| == |c.finished| + (if c.open == [] then 0 else 1)
    && (forall i :: 0 <= i < |c.finished| ==>
          Describes(records[i], url, c.finished[i].body, c.finished[i].closer.at))
    && (c.open != [] ==> Describes(records[|c.finished|], url, c.open, end))
  }

  lemma {:induction false} FinishedDescribe(url: string, finished: seq<Segment>)
    requires forall i :: 0 <= i < |finished| ==> finished[i].body != []
    ensures |Finished(url, finished)| == |finished|
    ensures forall i :: 0 <= i < |finished| ==>
              Describes(Finished(url, finished)[i], url, finished[i].body, finished[i].closer.at)
  {
    if finished != [] {
      FinishedDescribe(url, finished[..|finished| - 1]);
    }
  }

  /** What is published about a URL: the records of the greedy segmentation of its responses, with
      the code and the times of each segment. */
  lemma PublishedRecords(rs: seq<Response>, end: Clock, url: string)
    ensures Proper(Greedy(Stream(rs, url)))
    ensures DescribeCut(RecordsOf(Published(rs, end), url), url, Greedy(Stream(rs, url)), end)
  {
    hide Greedy, Stream, Published, RecordsOf, Finished, Describes;
    var c := Greedy(Stream(rs, url));
    PublishedIsGreedy(rs, end, url);
    BodiesNonempty(c);
    FinishedDescribe(url, c.finished);
    if c.open != [] {
      OpenDescribes(url, c.open, end);
    }
  }

  lemma OpenDescribes(url: string, body: seq<Response>, end: Clock)
    requires body != []
    ensures Describes(SegmentRecord(url, body, end), url, body, end)
  {
  }

  // ---- Times and the return value

  ghost predicate Monotone(rs: seq<Response>, end: Clock)
  {
    && (forall i :: 0 <= i < |rs| ==> rs[i].at <= end)
    && (forall i, j :: 0 <= i < j < |rs| ==> rs[i].at <= rs[j].at)
  }

  /** The time at which a segment is over never lies before its start or after the next one's. */
  lemma {:induction false} SegmentsInOrder(c: Cut, end: Clock, i: nat)
    requires Proper(c) && Monotone(Spread(c.finished) + c.open, end) && i < |c.finished|
    ensures c.finished[i].body[0].at <= c.finished[i].closer.at <= end
    ensures i + 1 < |c.finished| ==> c.finished[i].closer.at <= c.finished[i + 1].body[0].at
    ensures i + 1 == |c.finished| && c.open != [] ==> c.finished[i].closer.at <= c.open[0].at <= end
    decreases |c.finished|
  {
    var rs := Spread(c.finished) + c.open;
    var n := |c.finished| - 1;
    var s := c.finished[n];
    var front := Spread(c.finished[..n]);
    assert rs == front + s.body + [s.closer] + c.open;
    var k := |front|;
    assert rs[k] == s.body[0] && rs[k + |s.body|] == s.closer;
    assert c.open != [] ==> rs[k + |s.body| + 1] == c.open[0];
    if i < n {
      var shorter := Cut(c.finished[..n], s.body);
      assert Spread(shorter.finished) + shorter.open == rs[..k + |s.body|];
      SegmentsInOrder(shorter, end, i);
    }
  }

  lemma {:induction false} StreamMonotone(rs: seq<Response>, url: string, end: Clock)
    requires Monotone(rs, end)
    ensures Monotone(Stream(rs, url), end)
    ensures forall r :: r in Stream(rs, url) <==> r in rs && r.url == url
  {
    if rs != [] {
      var init, last := rs[..|rs| - 1], rs[|rs| - 1];
      StreamMonotone(init, url, end);
      var mine := Stream(init, url);
      assert rs == init + [last];
      forall i | 0 <= i < |mine| ensures mine[i].at <= last.at {
        assert mine[i] in init;
        var k :| 0 <= k < |init| && init[k] == mine[i];
        assert rs[k] == mine[i];
      }
    }
  }

  /** Records that end after they start and do not overlap, up to the time `end`. */
  ghost predicate InOrder(records: seq<Record>, end: Clock)
  {
    && (forall i :: 0 <= i < |records| ==>
          records[i].start <= records[i].end <= end && records[i].duration == records[i].end - records[i].start)
    && (forall i, j :: 0 <= i < j < |records| ==> records[i].end <= records[j].start)
  }

  lemma {:induction false} NeighboursInOrder(records: seq<Record>, end: Clock)
    requires forall i :: 0 <= i < |records| ==>
               records[i].start <= records[i].end <= end && records[i].duration == records[i].end - records[i].start
    requires forall i :: 0 <= i < |records| - 1 ==> records[i].end <= records[i + 1].start
    ensures InOrder(records, end)
  {
    if records != [] {
      var n := |records| - 1;
      NeighboursInOrder(records[..n], end);
      forall i | 0 <= i < n ensures records[i].end <= records[n].start {
        assert i < n - 1 ==> records[..n][i].end <= records[..n][n - 1].start;
        assert records[n - 1].end <= records[n].start;
      }
      assert forall i, j :: 0 <= i < j < n ==> records[..n][i].end <= records[..n][j].start;
    }
  }

  lemma CutInOrder(c: Cut, records: seq<Record>, url: string, end: Clock)
    requires Proper(c) && Monotone(Spread(c.finished) + c.open, end) && DescribeCut(records, url, c, end)
    ensures InOrder(records, end)
  {
    hide Proper, Monotone, Spread;
    if c.open != [] {
      OpenBeforeEnd(c, end);
    }
    forall i | 0 <= i < |records|
      ensures records[i].start <= records[i].end <= end && records[i].duration == records[i].end - records[i].start
      ensures i + 1 < |records| ==> records[i].end <= records[i + 1].start
    {
      if i < |c.finished| {
        SegmentsInOrder(c, end, i);
      }
    }
    NeighboursInOrder(records, end);
  }

  lemma OpenBeforeEnd(c: Cut, end: Clock)
    requires Monotone(Spread(c.finished) + c.open, end) && c.open != []
    ensures c.open[0].at <= end
  {
    var rs := Spread(c.finished) + c.open;
    assert rs[|Spread(c.finished)|] == c.open[0];
  }

  /** Under a clock that never runs backwards the published records of a URL are in order, do not
      overlap, and have their true durations. */
  lemma PublishedInOrder(rs: seq<Response>, end: Clock, url: string)
    requires Monotone(rs, end)
    ensures InOrder(RecordsOf(Published(rs, end), url), end)
  {
    hide Monotone, InOrder, Proper, DescribeCut, RecordsOf, Published, Greedy, Spread, Stream;
    StreamMonotone(rs, url, end);
    GreedyIsProper(Stream(rs, url));
    PublishedRecords(rs, end, url);
    CutInOrder(Greedy(Stream(rs, url)), RecordsOf(Published(rs, end), url), url, end);
  }

  /** `opens` at index k: the response found no open segment for its URL. */
  predicate Opens(rs: seq<Response>, k: nat)
    requires k < |rs|
  {
    rs[k].url !in Track(rs[..k]).entries
  }

  /** The return value is the failure code exactly when some period that was to exit on failure
      opened on a code other than 200; otherwise it is still 0. */
  lemma {:induction false} ReturnValue(rs: seq<Response>)
    ensures Track(rs).ret == 0 || Track(rs).ret == 3
    ensures Track(rs).ret == 3 <==> exists k :: 0 <= k < |rs| && Alarms(rs, k)
  {
    if rs != [] {
      var n := |rs| - 1;
      var init := rs[..n];
      ReturnValue(init);
      OneMoreReturn(init, rs[n]);
      assert rs == init + [rs[n]];
      forall k | 0 <= k < n ensures Alarms(rs, k) == Alarms(init, k) {
        assert rs[..k] == init[..k];
      }
    }
  }

  /** `rs[k]` opened a period that has to exit on failure, with another code than 200. */
  predicate Alarms(rs: seq<Response>, k: nat)
    requires k < |rs|
  {
    Opens(rs, k) && rs[k].code != 200 && rs[k].exitOnFailure
  }

  lemma OneMoreReturn(init: seq<Response>, r: Response)
    ensures var ret := Track(init).ret;
            Track(init + [r]).ret == if Alarms(init + [r], |init|) && ret == 0 then FAILURE else ret
  {
    TrackSnoc(init, r);
    assert (init + [r])[..|init|] == init;
  }

  /** Opening in terms of the segmentation: a response opens exactly when the URL's earlier
      responses are all in finished segments or closed one. */
  lemma OpensMeansNothingOpen(rs: seq<Response>, k: nat)
    requires k < |rs|
    ensures Opens(rs, k) <==> Greedy(Stream(rs[..k], rs[k].url)).open == []
  {
    TrackIsGreedy(rs[..k], rs[k].url);
  }

  /** What the code makes of one failing response amid good ones: it closes a period, opens none,
      appears in no record and cannot set the return value, whatever the configuration says. */
  lemma SingleFailureGoesUnnoticed(url: string, code: int, exit: bool, t0: Clock, t1: Clock, t2: Clock, end: Clock)
    requires code != OK
    ensures var rs := [Response(url, OK, exit, t0), Response(url, code, exit, t1), Response(url, OK, exit, t2)];
            && Track(rs).ret == 0
            && forall p :: p in Published(rs, end) ==> p.status
  {
    var a, b, c := Response(url, OK, exit, t0), Response(url, code, exit, t1), Response(url, OK, exit, t2);
    var rs := [a, b, c];
    assert rs[..2] == [a, b] && [a, b][..1] == [a] && [a][..0] == [];
    assert Track([a]) == Tracking(map[url := Entry(OK, t0)], [url], [], 0);
    assert Without([url], url) == [];
    assert Track([a, b]) == Tracking(map[], [], [Stamp(url, Entry(OK, t0), t1)], 0);
    assert Track(rs) == Tracking(map[url := Entry(OK, t2)], [url], [Stamp(url, Entry(OK, t0), t1)], 0);
    assert Finals(Track(rs).entries, [url], end) == [Stamp(url, Entry(OK, t2), end)] by {
      assert [url][..0] == [];
    }
  }
}
