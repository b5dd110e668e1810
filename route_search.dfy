/**
 * The route finder: a 0-1 breadth-first search over (train, station) nodes.
 * Riding a train to any later stop costs nothing and goes to the front of
 * the deque; boarding another train at the same station costs one and goes
 * to the back. The winning hop path is collapsed into one leg per train.
 */
module RouteSearch {
  import opened Wrappers
  import opened NetworkIndex

  /** One hop of a search path: being on `train` at `station`. */
  datatype Hop = Hop(train: Train, station: Station)

  /** One leg of a returned route: ride `train` from `from` to `to`. */
  datatype Leg = Leg(train: Train, from: Station, to: Station)

  /** A successful answer: the number of trains boarded and the legs. */
  datatype RouteResult = RouteResult(minTrains: nat, route: seq<Leg>)

  /** A deque entry: current train and station, the hop path so far, trains boarded. */
  datatype Entry = Entry(train: Train, station: Station, path: seq<Hop>, changes: nat)

  /** The entry a ride from `e` to station `s` puts on the deque: same train, same count. */
  function RideEntry(e: Entry, s: Station): Entry
  {
    Entry(e.train, s, e.path + [Hop(e.train, s)], e.changes)
  }

  /** The entry a switch from `e` onto train `t` puts on the deque: same station, one more train. */
  function SwitchEntry(e: Entry, t: Train): Entry
  {
    Entry(t, e.station, e.path + [Hop(t, e.station)], e.changes + 1)
  }

  // ---------------------------------------------------------------------
  // Case normalisation of the query codes

  /** Upper-casing of one character, on ASCII letters. */
  function UpperChar(c: char): char
  {
    if 'a' <= c <= 'z' then (c as int - 'a' as int + 'A' as int) as char else c
  }

  /** Upper-casing of a station code: each lower-case letter becomes its capital, nothing else changes. */
  function Upper(s: string): (r: string)
    ensures |r| == |s|
    ensures forall i :: 0 <= i < |r| ==> !('a' <= r[i] <= 'z')
    ensures forall i :: 0 <= i < |s| && 'a' <= s[i] <= 'z' ==> r[i] == (s[i] as int - 32) as char
    ensures forall i :: 0 <= i < |s| && !('a' <= s[i] <= 'z') ==> r[i] == s[i]
  {
    seq(|s|, i requires 0 <= i < |s| => UpperChar(s[i]))
  }

  // ---------------------------------------------------------------------
  // Position lookup in a stop list

  /** The first position of `x` in `xs`, or None when `x` is absent (the ValueError case). */
  function FirstIndex(xs: seq<Station>, x: Station): (r: Option<nat>)
    ensures r.Some? <==> x in xs
    ensures r.Some? ==> r.value < |xs| && xs[r.value] == x && x !in xs[..r.value]
  {
    if xs == [] then None
    else if xs[0] == x then Some(0)
    else match FirstIndex(xs[1..], x)
      case None => None
      case Some(i) =>
        assert xs[1..][..i] == xs[1..i + 1];
        Some(i + 1)
  }

  /** The stations of a list, as a set. */
  function Members(xs: seq<Station>): set<Station>
  {
    set x | x in xs
  }

  /** No station occurs twice in the list. */
  ghost predicate NoRepeats(xs: seq<Station>)
  {
    forall i, j :: 0 <= i < j < |xs| ==> xs[i] != xs[j]
  }

  /** In a list without repeats, a station's first position is its only position. */
  lemma FirstIndexUnique(xs: seq<Station>, j: nat)
    requires NoRepeats(xs) && j < |xs|
    ensures FirstIndex(xs, xs[j]) == Some(j)
  {
  }

  /** Appending a station not yet listed keeps a list free of repeats. */
  lemma NoRepeatsSnoc(xs: seq<Station>, x: Station)
    requires NoRepeats(xs) && x !in xs
    ensures NoRepeats(xs + [x])
  {
    var ys := xs + [x];
    forall i, j | 0 <= i < j < |ys| ensures ys[i] != ys[j] {
      assert ys[i] == xs[i];
      if j < |xs| {
        assert ys[j] == xs[j];
      }
    }
  }

  /** A position whose station does not occur earlier is that station's first position. */
  lemma FirstIndexAt(xs: seq<Station>, k: nat)
    requires k < |xs| && xs[k] !in xs[..k]
    ensures FirstIndex(xs, xs[k]) == Some(k)
  {
  }

  /** Both stations occur in `xs`, and `a` first occurs before `b` does. */
  ghost predicate FirstBefore(xs: seq<Station>, a: Station, b: Station)
  {
    a in xs && b in xs && FirstIndex(xs, a).value < FirstIndex(xs, b).value
  }

  // ---------------------------------------------------------------------
  // The two kinds of move and the paths they build

  /** The stations a ride from `s` on `t` can reach: those after the first occurrence of `s`. */
  function LaterStops(net: Network, t: Train, s: Station): (r: seq<Station>)
    ensures s !in StopsOf(net, t) ==> r == []
  {
    match FirstIndex(StopsOf(net, t), s)
    case None => []
    case Some(i) => StopsOf(net, t)[i + 1..]
  }

  /** A station reached by a ride is a stop of the train. */
  lemma LaterStopIsStop(net: Network, t: Train, s: Station, x: Station)
    requires x in LaterStops(net, t, s)
    ensures x in StopsOf(net, t)
  {
  }

  /** A ride: same train, to a stop strictly after the current one. */
  ghost predicate RideStep(net: Network, h: Hop, h': Hop)
  {
    h'.train == h.train && h'.station in LaterStops(net, h.train, h.station)
  }

  /** A switch: another train calling at the same station. */
  ghost predicate SwitchStep(net: Network, h: Hop, h': Hop)
  {
    h'.station == h.station && h'.train != h.train && h'.train in TrainsAt(net, h.station)
  }

  /** A search path: boards a train at the source, then rides and switches. */
  ghost predicate ValidPath(net: Network, source: Station, p: seq<Hop>)
  {
    && |p| >= 1
    && p[0].station == source
    && p[0].train in TrainsAt(net, source)
    && forall k :: 0 <= k < |p| - 1 ==> StepAt(net, p, k)
  }

  /** Hop `k + 1` of `p` follows hop `k` by a ride or a switch. */
  ghost predicate StepAt(net: Network, p: seq<Hop>, k: nat)
    requires k < |p| - 1
  {
    RideStep(net, p[k], p[k + 1]) || SwitchStep(net, p[k], p[k + 1])
  }

  /** The number of places where the path changes train. */
  function Switches(p: seq<Hop>): nat
  {
    if |p| <= 1 then 0
    else Switches(p[..|p| - 1]) + (if p[|p| - 2].train != p[|p| - 1].train then 1 else 0)
  }

  /** A deque entry's path is a search path ending at the entry's node, with one boarding per train change plus one. */
  ghost predicate EntryOk(net: Network, source: Station, e: Entry)
  {
    && ValidPath(net, source, e.path)
    && e.path[|e.path| - 1] == Hop(e.train, e.station)
    && e.changes == 1 + Switches(e.path)
  }

  /**
   * The deque invariant: every entry is a search path, the deque is sorted
   * by trains boarded, and every count is `level` or `level + 1`.
   */
  ghost predicate FrontierOk(net: Network, source: Station, q: seq<Entry>, level: nat)
  {
    && (forall i :: 0 <= i < |q| ==> EntryOk(net, source, q[i]))
    && (forall i :: 0 <= i < |q| ==> level <= q[i].changes <= level + 1)
    && (forall i, j :: 0 <= i < j < |q| ==> q[i].changes <= q[j].changes)
  }

  /** Extending a search path by one move gives a search path; only a switch adds to the train count. */
  lemma ExtendPath(net: Network, source: Station, p: seq<Hop>, h: Hop)
    requires ValidPath(net, source, p)
    requires RideStep(net, p[|p| - 1], h) || SwitchStep(net, p[|p| - 1], h)
    ensures ValidPath(net, source, p + [h])
    ensures Switches(p + [h]) == Switches(p) + (if SwitchStep(net, p[|p| - 1], h) then 1 else 0)
  {
    var p' := p + [h];
    forall k | 0 <= k < |p'| - 1 ensures StepAt(net, p', k) {
      if k < |p| - 1 {
        assert StepAt(net, p, k);
        assert p'[k] == p[k] && p'[k + 1] == p[k + 1];
      } else {
        assert p'[k] == p[|p| - 1] && p'[k + 1] == h;
      }
    }
    SwitchesSnoc(p, h);
  }

  /** Appending a hop adds one train change exactly when the train differs. */
  lemma SwitchesSnoc(p: seq<Hop>, h: Hop)
    requires |p| >= 1
    ensures Switches(p + [h]) == Switches(p) + (if p[|p| - 1].train != h.train then 1 else 0)
  {
    var p' := p + [h];
    assert p'[..|p'| - 1] == p;
  }

  // ---------------------------------------------------------------------
  // The routes returned

  /** Hops `from` to `to - 1` of `path` all ride the train of hop `from`. */
  ghost predicate OneTrain(path: seq<Hop>, from: nat, to: nat)
    requires from < |path| && to <= |path|
  {
    forall k :: from <= k < to ==> path[k].train == path[from].train
  }

  /** `leg` covers hops `a` to `b - 1`: one train, boarded at hop `a`'s station. */
  ghost predicate RunOf(path: seq<Hop>, leg: Leg, a: nat, b: nat)
  {
    && a < b <= |path|
    && leg.train == path[a].train
    && leg.from == path[a].station
    && OneTrain(path, a, b)
  }

  /** A run left at hop `b - 1`'s station because hop `b` is on another train. */
  ghost predicate ClosedRun(path: seq<Hop>, leg: Leg, a: nat, b: nat)
  {
    && RunOf(path, leg, a, b)
    && b < |path|
    && leg.to == path[b - 1].station
    && path[b].train != leg.train
  }

  /**
   * `legs` collapses `path`: `bounds` cuts the path into maximal runs of one
   * train; leg `i` covers hops `bounds[i]` to `bounds[i+1] - 1`, is boarded
   * at the first of them and left at the last, except that the final leg
   * is left at `dest`.
   */
  ghost predicate Collapses(path: seq<Hop>, dest: Station, legs: seq<Leg>, bounds: seq<nat>)
  {
    && |legs| >= 1
    && |bounds| == |legs| + 1
    && bounds[0] == 0
    && bounds[|legs|] == |path|
    && (forall i :: 0 <= i < |legs| - 1 ==> ClosedRun(path, legs[i], bounds[i], bounds[i + 1]))
    && RunOf(path, legs[|legs| - 1], bounds[|legs| - 1], |path|)
    && legs[|legs| - 1].to == dest
  }

  /**
   * A continuous journey from `source` to `dest`: legs chain end to start,
   * consecutive legs use different trains, and each leg boards and leaves
   * its train at stations on its stop list, forwards when the list has no
   * repeated station.
   */
  ghost predicate Journey(net: Network, source: Station, dest: Station, legs: seq<Leg>)
  {
    && |legs| >= 1
    && legs[0].from == source
    && legs[|legs| - 1].to == dest
    && (forall i :: 0 <= i < |legs| - 1 ==> legs[i].to == legs[i + 1].from && legs[i].train != legs[i + 1].train)
    && (forall i :: 0 <= i < |legs| ==> LegOnTrain(net, legs[i]))
  }

  /** A leg's ends are stops of its train, the boarding one first when the stops do not repeat. */
  ghost predicate LegOnTrain(net: Network, leg: Leg)
  {
    var stops := StopsOf(net, leg.train);
    && leg.from in stops
    && leg.to in stops
    && (NoRepeats(stops) ==> FirstIndex(stops, leg.from).value <= FirstIndex(stops, leg.to).value)
  }

  /** Every hop of a search path stands at a stop of its train. */
  lemma HopOnTrain(net: Network, source: Station, path: seq<Hop>, k: nat)
    requires Coherent(net)
    requires ValidPath(net, source, path)
    requires k < |path|
    ensures path[k].station in StopsOf(net, path[k].train)
  {
    if k > 0 {
      assert StepAt(net, path, k - 1);
      if SwitchStep(net, path[k - 1], path[k]) {
        assert path[k].train in TrainsAt(net, path[k].station);
      } else {
        LaterStopIsStop(net, path[k - 1].train, path[k - 1].station, path[k].station);
      }
    }
  }

  /** Along a run of one train whose stops do not repeat, every ride moves forwards. */
  lemma {:induction false} RunMovesForward(net: Network, source: Station, path: seq<Hop>, a: nat, k: nat)
    requires ValidPath(net, source, path)
    requires a <= k < |path|
    requires forall m :: a <= m <= k ==> path[m].train == path[a].train
    requires path[a].station in StopsOf(net, path[a].train)
    requires NoRepeats(StopsOf(net, path[a].train))
    ensures path[k].station in StopsOf(net, path[a].train)
    ensures FirstIndex(StopsOf(net, path[a].train), path[a].station).value
         <= FirstIndex(StopsOf(net, path[a].train), path[k].station).value
  {
    if k > a {
      RunMovesForward(net, source, path, a, k - 1);
      assert StepAt(net, path, k - 1);
      assert path[k - 1].train == path[a].train && path[k].train == path[a].train;
      RideForward(net, path[a].train, path[k - 1].station, path[k].station);
    }
  }

  /** On a train whose stops do not repeat, a ride ends at a later position than it starts. */
  lemma RideForward(net: Network, t: Train, x: Station, y: Station)
    requires NoRepeats(StopsOf(net, t))
    requires y in LaterStops(net, t, x)
    ensures x in StopsOf(net, t) && y in StopsOf(net, t)
    ensures FirstIndex(StopsOf(net, t), x).value < FirstIndex(StopsOf(net, t), y).value
  {
    var stops := StopsOf(net, t);
    var i := FirstIndex(stops, x).value;
    var later := stops[i + 1..];
    var j := FirstIndex(later, y).value;
    assert stops[i + 1 + j] == y;
    FirstIndexUnique(stops, i + 1 + j);
  }

  /** A collapsed search path that ends at `dest` is a continuous journey from the source to `dest`. */
  lemma CollapsedPathIsJourney(net: Network, source: Station, dest: Station,
                               path: seq<Hop>, legs: seq<Leg>, bounds: seq<nat>)
    requires Coherent(net)
    requires ValidPath(net, source, path)
    requires path[|path| - 1].station == dest
    requires Collapses(path, dest, legs, bounds)
    ensures Journey(net, source, dest, legs)
  {
    var n := |legs|;
    if n > 1 {
      assert ClosedRun(path, legs[0], bounds[0], bounds[1]);
    }
    forall i | 0 <= i < n - 1
      ensures legs[i].to == legs[i + 1].from && legs[i].train != legs[i + 1].train
    {
      assert ClosedRun(path, legs[i], bounds[i], bounds[i + 1]);
      if i + 1 < n - 1 {
        assert ClosedRun(path, legs[i + 1], bounds[i + 1], bounds[i + 2]);
      }
      var k := bounds[i + 1] - 1;
      assert StepAt(net, path, k);
    }
    forall i | 0 <= i < n
      ensures LegOnTrain(net, legs[i])
    {
      var a, b := bounds[i], bounds[i + 1] - 1;
      assert RunOf(path, legs[i], a, b + 1);
      HopOnTrain(net, source, path, a);
      HopOnTrain(net, source, path, b);
      if NoRepeats(StopsOf(net, legs[i].train)) {
        RunMovesForward(net, source, path, a, b);
      }
    }
  }

  /** Riding on from an entry to one of its train's later stops gives an entry with the same count. */
  lemma RideEntryOk(net: Network, source: Station, e: Entry, next: Station)
    requires EntryOk(net, source, e)
    requires next in LaterStops(net, e.train, e.station)
    ensures EntryOk(net, source, RideEntry(e, next))
  {
    ExtendPath(net, source, e.path, Hop(e.train, next));
  }

  /** Switching from an entry to another train at its station gives an entry with one more train boarded. */
  lemma SwitchEntryOk(net: Network, source: Station, e: Entry, next: Train)
    requires EntryOk(net, source, e)
    requires next in TrainsAt(net, e.station) && next != e.train
    ensures EntryOk(net, source, SwitchEntry(e, next))
  {
    ExtendPath(net, source, e.path, Hop(next, e.station));
  }

  /** Pushing a ride from `e` to the front keeps the deque invariant. */
  lemma PushRide(net: Network, source: Station, q: seq<Entry>, e: Entry, next: Station)
    requires FrontierOk(net, source, q, e.changes)
    requires EntryOk(net, source, e)
    requires next in LaterStops(net, e.train, e.station)
    ensures FrontierOk(net, source, [RideEntry(e, next)] + q, e.changes)
  {
    RideEntryOk(net, source, e, next);
    PushFrontKeepsFrontier(net, source, q, e.changes, RideEntry(e, next));
  }

  /** A ride entry at the current count may go to the front of the deque. */
  lemma PushFrontKeepsFrontier(net: Network, source: Station, q: seq<Entry>, level: nat, e: Entry)
    requires FrontierOk(net, source, q, level)
    requires EntryOk(net, source, e) && e.changes == level
    ensures FrontierOk(net, source, [e] + q, level)
  {
    var q' := [e] + q;
    forall i | 0 < i < |q'| ensures q'[i] == q[i - 1] {}
  }

  /** A switch entry at the next count may go to the back of the deque. */
  lemma PushBackKeepsFrontier(net: Network, source: Station, q: seq<Entry>, level: nat, e: Entry)
    requires FrontierOk(net, source, q, level)
    requires EntryOk(net, source, e) && e.changes == level + 1
    ensures FrontierOk(net, source, q + [e], level)
  {
    var q' := q + [e];
    forall i | 0 <= i < |q| ensures q'[i] == q[i] {}
  }

  // ---------------------------------------------------------------------
  // The search

  /** route_logic.py lines 44-46: one entry per train calling at the source, each with one train boarded. */
  method SeedFrontier(net: Network, source: Station) returns (q: seq<Entry>)
    ensures |q| == |TrainsAt(net, source)|
    ensures forall i :: 0 <= i < |q| ==>
              q[i].train in TrainsAt(net, source) && q[i] == Entry(q[i].train, source, [Hop(q[i].train, source)], 1)
    ensures forall i, j :: 0 <= i < j < |q| ==> q[i].train != q[j].train
    ensures FrontierOk(net, source, q, 1)
  {
    q := [];
    var pending := TrainsAt(net, source);
    while pending != {}
      invariant pending <= TrainsAt(net, source)
      invariant |q| + |pending| == |TrainsAt(net, source)|
      invariant forall i :: 0 <= i < |q| ==>
                  q[i].train in TrainsAt(net, source) - pending
                  && q[i] == Entry(q[i].train, source, [Hop(q[i].train, source)], 1)
      invariant forall i, j :: 0 <= i < j < |q| ==> q[i].train != q[j].train
      invariant FrontierOk(net, source, q, 1)
    {
      var t :| t in pending;
      var seed := Entry(t, source, [Hop(t, source)], 1);
      assert EntryOk(net, source, seed);
      PushBackKeepsFrontier(net, source, q, 0, seed);
      assert FrontierOk(net, source, q + [seed], 1);
      q := q + [seed];
      pending := pending - {t};
    }
  }

  /**
   * The stations a pass over `xs` finds unvisited: each station not in
   * `visited`, at its first occurrence, in list order.
   */
  function FreshStops(xs: seq<Station>, visited: set<Station>): seq<Station>
  {
    if xs == [] then []
    else
      var init := FreshStops(xs[..|xs| - 1], visited);
      var x := xs[|xs| - 1];
      if x in visited || x in init then init else init + [x]
  }

  /** The front block `appendleft` builds from ride targets `xs`: the target pushed last comes first. */
  function RideFront(e: Entry, xs: seq<Station>): seq<Entry>
  {
    if xs == [] then []
    else [RideEntry(e, xs[|xs| - 1])] + RideFront(e, xs[..|xs| - 1])
  }

  /** The back block `append` builds from switch targets `ts`, in the order they were met. */
  function SwitchBack(e: Entry, ts: seq<Train>): seq<Entry>
  {
    if ts == [] then []
    else SwitchBack(e, ts[..|ts| - 1]) + [SwitchEntry(e, ts[|ts| - 1])]
  }

  /** The fresh stations are exactly the stations of the list not visited. */
  lemma {:induction false} FreshStopsMembers(xs: seq<Station>, visited: set<Station>)
    ensures Members(FreshStops(xs, visited)) == Members(xs) - visited
  {
    if xs != [] {
      var init := xs[..|xs| - 1];
      var x := xs[|xs| - 1];
      var found := FreshStops(init, visited);
      FreshStopsMembers(init, visited);
      assert xs == init + [x];
      assert Members(xs) == Members(init) + {x};
      if x in visited || x in found {
        assert x in found ==> x in Members(found);
      } else {
        assert Members(found + [x]) == Members(found) + {x};
      }
    }
  }

  /** No fresh station is listed twice, so there are as many as there are distinct ones. */
  lemma {:induction false} FreshStopsDistinct(xs: seq<Station>, visited: set<Station>)
    ensures NoRepeats(FreshStops(xs, visited))
    ensures |Members(FreshStops(xs, visited))| == |FreshStops(xs, visited)|
  {
    if xs != [] {
      var init := FreshStops(xs[..|xs| - 1], visited);
      var x := xs[|xs| - 1];
      FreshStopsDistinct(xs[..|xs| - 1], visited);
      if !(x in visited || x in init) {
        var r := init + [x];
        assert Members(r) == Members(init) + {x};
        NoRepeatsSnoc(init, x);
      }
    }
  }

  /** Inside a prefix that holds a station, its first position is the same as in the whole list. */
  lemma FirstIndexPrefix(xs: seq<Station>, k: nat, x: Station)
    requires k <= |xs| && x in xs[..k]
    ensures FirstIndex(xs, x) == FirstIndex(xs[..k], x)
  {
    var j := FirstIndex(xs[..k], x).value;
    assert xs[j] == x && x !in xs[..j] by {
      assert xs[..k][..j] == xs[..j];
    }
    FirstIndexAt(xs, j);
  }

  /** The fresh stations are listed in the order of their first positions in the list. */
  lemma {:induction false} FreshStopsOrder(xs: seq<Station>, visited: set<Station>)
    ensures forall i, j :: 0 <= i < j < |FreshStops(xs, visited)| ==>
              FirstBefore(xs, FreshStops(xs, visited)[i], FreshStops(xs, visited)[j])
  {
    if xs != [] {
      var n := |xs| - 1;
      var init := FreshStops(xs[..n], visited);
      var x := xs[n];
      FreshStopsOrder(xs[..n], visited);
      FreshStopsMembers(xs[..n], visited);
      var r := FreshStops(xs, visited);
      forall i, j | 0 <= i < j < |init| ensures FirstBefore(xs, init[i], init[j]) {
        assert init[i] in Members(init) && init[j] in Members(init);
        FirstIndexPrefix(xs, n, init[i]);
        FirstIndexPrefix(xs, n, init[j]);
        assert FirstBefore(xs[..n], init[i], init[j]);
      }
      if r != init {
        assert r == init + [x] && x !in Members(init);
        assert x !in Members(xs[..n]);
        FirstIndexAt(xs, n);
        forall i | 0 <= i < |init| ensures FirstBefore(xs, init[i], x) {
          assert init[i] in Members(init);
          FirstIndexPrefix(xs, n, init[i]);
        }
      }
    }
  }

  /** The front block holds one ride entry per target, the last target first. */
  lemma {:induction false} RideFrontEntries(e: Entry, xs: seq<Station>)
    ensures |RideFront(e, xs)| == |xs|
    ensures forall i :: 0 <= i < |xs| ==> RideFront(e, xs)[i] == RideEntry(e, xs[|xs| - 1 - i])
  {
    if xs != [] {
      var init := xs[..|xs| - 1];
      RideFrontEntries(e, init);
      forall i | 1 <= i < |xs| ensures RideFront(e, xs)[i] == RideEntry(e, xs[|xs| - 1 - i]) {
        assert RideFront(e, xs)[i] == RideFront(e, init)[i - 1];
        assert init[|init| - 1 - (i - 1)] == xs[|xs| - 1 - i];
      }
    }
  }

  /**
   * The block a ride pass leaves in front of the deque: one ride entry, at
   * the entry's count, for each unvisited later stop, the stop met last
   * first, so in reverse order of first position.
   */
  lemma RideFrontOrder(e: Entry, nexts: seq<Station>, visited: set<Station>)
    ensures |RideFront(e, FreshStops(nexts, visited))| == |Members(nexts) - visited|
    ensures forall i :: 0 <= i < |RideFront(e, FreshStops(nexts, visited))| ==>
              && RideFront(e, FreshStops(nexts, visited))[i]
                 == RideEntry(e, RideFront(e, FreshStops(nexts, visited))[i].station)
              && RideFront(e, FreshStops(nexts, visited))[i].station in nexts
              && RideFront(e, FreshStops(nexts, visited))[i].station !in visited
    ensures forall i, j :: 0 <= i < j < |RideFront(e, FreshStops(nexts, visited))| ==>
              FirstBefore(nexts, RideFront(e, FreshStops(nexts, visited))[j].station,
                                 RideFront(e, FreshStops(nexts, visited))[i].station)
  {
    var found := FreshStops(nexts, visited);
    var block := RideFront(e, found);
    RideFrontEntries(e, found);
    FreshStopsOrder(nexts, visited);
    FreshStopsMembers(nexts, visited);
    FreshStopsDistinct(nexts, visited);
    forall i | 0 <= i < |block|
      ensures block[i] == RideEntry(e, block[i].station) && block[i].station in nexts && block[i].station !in visited
    {
      assert block[i].station == found[|found| - 1 - i];
      assert found[|found| - 1 - i] in Members(found);
    }
    forall i, j | 0 <= i < j < |block|
      ensures FirstBefore(nexts, block[j].station, block[i].station)
    {
      assert block[i].station == found[|found| - 1 - i] && block[j].station == found[|found| - 1 - j];
    }
  }

  /** The back block holds one switch entry per target, in the same order. */
  lemma {:induction false} SwitchBackEntries(e: Entry, ts: seq<Train>)
    ensures |SwitchBack(e, ts)| == |ts|
    ensures forall i :: 0 <= i < |ts| ==> SwitchBack(e, ts)[i] == SwitchEntry(e, ts[i])
  {
    if ts != [] {
      var init := ts[..|ts| - 1];
      SwitchBackEntries(e, init);
      forall i | 0 <= i < |init| ensures SwitchBack(e, ts)[i] == SwitchEntry(e, ts[i]) {
        assert SwitchBack(e, ts)[i] == SwitchBack(e, init)[i];
        assert init[i] == ts[i];
      }
    }
  }

  /**
   * route_logic.py lines 89-92: every later stop of the entry's train not yet
   * visited is pushed to the front, on the same train and count, and marked
   * visited.
   */
  method PushRides(net: Network, ghost source: Station, e: Entry, nexts: seq<Station>,
                   q: seq<Entry>, visited: set<Station>)
    returns (q': seq<Entry>, visited': set<Station>, ghost rides: set<Station>)
    requires EntryOk(net, source, e)
    requires nexts == LaterStops(net, e.train, e.station)
    requires FrontierOk(net, source, q, e.changes)
    ensures FrontierOk(net, source, q', e.changes)
    ensures rides == Members(FreshStops(nexts, visited)) && |rides| == |FreshStops(nexts, visited)|
    ensures visited' == visited + rides
    ensures q' == RideFront(e, FreshStops(nexts, visited)) + q
  {
    q', visited', rides := q, visited, {};
    ghost var found: seq<Station> := [];
    for k := 0 to |nexts|
      invariant found == FreshStops(nexts[..k], visited)
      invariant rides == Members(found) && |rides| == |found|
      invariant visited' == visited + rides
      invariant q' == RideFront(e, found) + q
    {
      var next := nexts[k];
      FreshStopsSnoc(nexts, k, visited, rides);
      if next !in visited' {
        RideFrontSnoc(e, found, next, q);
        q' := [RideEntry(e, next)] + q';
        visited' := visited' + {next};
        rides := rides + {next};
        found := found + [next];
      }
    }
    assert nexts[..|nexts|] == nexts;
    FreshStopsMembers(nexts, visited);
    RideFrontKeepsFrontier(net, source, e, found, q);
  }

  /** A front block of rides to later stops, pushed before a valid deque, keeps the deque invariant. */
  lemma {:induction false} RideFrontKeepsFrontier(net: Network, source: Station, e: Entry, xs: seq<Station>, q: seq<Entry>)
    requires EntryOk(net, source, e)
    requires FrontierOk(net, source, q, e.changes)
    requires Members(xs) <= Members(LaterStops(net, e.train, e.station))
    ensures FrontierOk(net, source, RideFront(e, xs) + q, e.changes)
  {
    if xs != [] {
      var init, x := xs[..|xs| - 1], xs[|xs| - 1];
      assert xs == init + [x];
      assert Members(xs) == Members(init) + {x};
      RideFrontKeepsFrontier(net, source, e, init, q);
      PushRide(net, source, RideFront(e, init) + q, e, x);
      assert RideFront(e, xs) + q == [RideEntry(e, x)] + (RideFront(e, init) + q);
    }
  }

  /** One more later stop extends the fresh stations exactly when it is neither visited nor already found. */
  lemma FreshStopsSnoc(nexts: seq<Station>, k: nat, visited: set<Station>, rides: set<Station>)
    requires k < |nexts|
    requires rides == Members(FreshStops(nexts[..k], visited)) && |rides| == |FreshStops(nexts[..k], visited)|
    ensures nexts[k] in visited + rides ==> FreshStops(nexts[..k + 1], visited) == FreshStops(nexts[..k], visited)
    ensures nexts[k] !in visited + rides ==>
              && FreshStops(nexts[..k + 1], visited) == FreshStops(nexts[..k], visited) + [nexts[k]]
              && rides + {nexts[k]} == Members(FreshStops(nexts[..k + 1], visited))
              && |rides + {nexts[k]}| == |FreshStops(nexts[..k + 1], visited)|
  {
    var init := FreshStops(nexts[..k], visited);
    assert nexts[..k + 1][..k] == nexts[..k];
    if nexts[k] !in visited + rides {
      assert Members(init + [nexts[k]]) == Members(init) + {nexts[k]};
    }
  }

  /** Pushing a ride entry in front of the block for `xs` gives the block for `xs` with that target appended. */
  lemma RideFrontSnoc(e: Entry, xs: seq<Station>, x: Station, q: seq<Entry>)
    ensures [RideEntry(e, x)] + (RideFront(e, xs) + q) == RideFront(e, xs + [x]) + q
  {
    assert (xs + [x])[..|xs|] == xs;
  }

  /**
   * route_logic.py lines 95-98: every train at the entry's station not yet
   * switched onto is pushed to the back, one more train boarded, and marked
   * visited. Ghost result `order`: the trains switched onto, in the order
   * the set iteration met them.
   */
  method PushSwitches(net: Network, ghost source: Station, e: Entry, q: seq<Entry>, visited: set<Train>)
    returns (q': seq<Entry>, visited': set<Train>, ghost switches: set<Train>, ghost order: seq<Train>)
    requires EntryOk(net, source, e)
    requires e.train in visited
    requires FrontierOk(net, source, q, e.changes)
    ensures FrontierOk(net, source, q', e.changes)
    ensures visited' == visited + switches && switches == TrainsAt(net, e.station) - visited
    ensures switches == Members(order) && |switches| == |order| && NoRepeats(order)
    ensures q' == q + SwitchBack(e, order)
  {
    q', visited', switches, order := q, visited, {}, [];
    var pending := TrainsAt(net, e.station);
    while pending != {}
      invariant FrontierOk(net, source, q', e.changes)
      invariant SwitchesSoFar(TrainsAt(net, e.station), pending, visited, visited', switches, order)
      invariant q' == q + SwitchBack(e, order)
    {
      var next :| next in pending;
      if next !in visited' {
        PushSwitch(net, source, q', e, next);
        SwitchRecorded(TrainsAt(net, e.station), pending, visited, visited', switches, order, next);
        SwitchBackSnoc(e, order, next, q);
        q' := q' + [SwitchEntry(e, next)];
        visited' := visited' + {next};
        switches := switches + {next};
        order := order + [next];
      }
      pending := pending - {next};
    }
  }

  /**
   * With `pending` still to consider among the station's `trains`: the
   * newly visited trains are `switches`, all among `trains` and new to
   * `visited`, listed once each in `order`; every train already considered
   * is visited.
   */
  ghost predicate SwitchesSoFar(trains: set<Train>, pending: set<Train>, visited: set<Train>,
                                visited': set<Train>, switches: set<Train>, order: seq<Train>)
  {
    && pending <= trains
    && visited' == visited + switches && switches !! visited && switches <= trains
    && trains - pending <= visited'
    && switches == Members(order) && |switches| == |order| && NoRepeats(order)
  }

  /** Pushing a switch onto the unvisited train `next` records it. */
  lemma SwitchRecorded(trains: set<Train>, pending: set<Train>, visited: set<Train>,
                       visited': set<Train>, switches: set<Train>, order: seq<Train>, next: Train)
    requires SwitchesSoFar(trains, pending, visited, visited', switches, order)
    requires next in pending && next !in visited'
    ensures SwitchesSoFar(trains, pending, visited, visited' + {next}, switches + {next}, order + [next])
  {
    assert Members(order + [next]) == Members(order) + {next};
    NoRepeatsSnoc(order, next);
  }

  /** Pushing a switch entry behind the block for `ts` gives the block for `ts` with that train appended. */
  lemma SwitchBackSnoc(e: Entry, ts: seq<Train>, t: Train, q: seq<Entry>)
    ensures (q + SwitchBack(e, ts)) + [SwitchEntry(e, t)] == q + SwitchBack(e, ts + [t])
  {
    assert (ts + [t])[..|ts|] == ts;
  }

  /** Pushing a switch from `e` to the back keeps the deque invariant. */
  lemma PushSwitch(net: Network, source: Station, q: seq<Entry>, e: Entry, next: Train)
    requires FrontierOk(net, source, q, e.changes)
    requires EntryOk(net, source, e)
    requires next in TrainsAt(net, e.station) && next != e.train
    ensures FrontierOk(net, source, q + [SwitchEntry(e, next)], e.changes)
  {
    SwitchEntryOk(net, source, e, next);
    PushBackKeepsFrontier(net, source, q, e.changes, SwitchEntry(e, next));
  }

  /** The legs closed so far cut the hops before `bounds[|legs|]` into runs of one train. */
  ghost predicate ClosedLegs(path: seq<Hop>, legs: seq<Leg>, bounds: seq<nat>)
  {
    && |bounds| == |legs| + 1
    && bounds[0] == 0
    && bounds[|legs|] < |path|
    && forall j :: 0 <= j < |legs| ==> ClosedRun(path, legs[j], bounds[j], bounds[j + 1])
  }

  /** Closing the open run where the train changes at hop `i` keeps the closed legs well cut. */
  lemma CloseLeg(path: seq<Hop>, legs: seq<Leg>, bounds: seq<nat>, i: nat)
    requires ClosedLegs(path, legs, bounds)
    requires bounds[|legs|] < i < |path|
    requires OneTrain(path, bounds[|legs|], i)
    requires path[i].train != path[bounds[|legs|]].train
    ensures ClosedLegs(path,
      legs + [Leg(path[bounds[|legs|]].train, path[bounds[|legs|]].station, path[i - 1].station)],
      bounds + [i])
  {
    var b := bounds[|legs|];
    var legs' := legs + [Leg(path[b].train, path[b].station, path[i - 1].station)];
    var bounds' := bounds + [i];
    forall j | 0 <= j < |legs'|
      ensures ClosedRun(path, legs'[j], bounds'[j], bounds'[j + 1])
    {
      if j < |legs| {
        assert legs'[j] == legs[j] && bounds'[j] == bounds[j] && bounds'[j + 1] == bounds[j + 1];
      }
    }
  }

  /** Closing the last run at the destination completes the collapse. */
  lemma CloseLastLeg(path: seq<Hop>, dest: Station, legs: seq<Leg>, bounds: seq<nat>)
    requires ClosedLegs(path, legs, bounds)
    requires OneTrain(path, bounds[|legs|], |path|)
    ensures Collapses(path, dest,
      legs + [Leg(path[bounds[|legs|]].train, path[bounds[|legs|]].station, dest)],
      bounds + [|path|])
  {
    var b := bounds[|legs|];
    var legs' := legs + [Leg(path[b].train, path[b].station, dest)];
    var bounds' := bounds + [|path|];
    forall j | 0 <= j < |legs'| - 1
      ensures ClosedRun(path, legs'[j], bounds'[j], bounds'[j + 1])
    {
      assert legs'[j] == legs[j] && bounds'[j] == bounds[j] && bounds'[j + 1] == bounds[j + 1];
    }
  }

  /**
   * route_logic.py lines 53-72: walk the hop path, closing a leg wherever
   * the train changes (it ends at the previous hop's station), and close the
   * final leg at the destination.
   */
  method CollapseLegs(path: seq<Hop>, dest: Station) returns (legs: seq<Leg>, ghost bounds: seq<nat>)
    requires |path| >= 1
    ensures Collapses(path, dest, legs, bounds)
    ensures |legs| == 1 + Switches(path)
  {
    legs, bounds := [], [0];
    var prevTrain, startStation := path[0].train, path[0].station;
    for i := 1 to |path|
      invariant ClosedLegs(path, legs, bounds) && bounds[|legs|] < i
      invariant prevTrain == path[bounds[|legs|]].train && startStation == path[bounds[|legs|]].station
      invariant OneTrain(path, bounds[|legs|], i)
      invariant |legs| == Switches(path[..i])
    {
      assert path[..i + 1][..i] == path[..i];
      if path[i].train != prevTrain {
        CloseLeg(path, legs, bounds, i);
        legs := legs + [Leg(prevTrain, startStation, path[i - 1].station)];
        bounds := bounds + [i];
        prevTrain, startStation := path[i].train, path[i].station;
      }
    }
    assert path[..|path|] == path;
    CloseLastLeg(path, dest, legs, bounds);
    legs := legs + [Leg(prevTrain, startStation, dest)];
    bounds := bounds + [|path|];
  }

  /** Taking the front entry leaves a frontier banded at that entry's count. */
  lemma PopKeepsFrontier(net: Network, source: Station, q: seq<Entry>, level: nat)
    requires FrontierOk(net, source, q, level) && q != []
    ensures level <= q[0].changes
    ensures FrontierOk(net, source, q[1..], q[0].changes)
  {
    forall i | 0 <= i < |q| - 1 ensures q[1..][i] == q[i + 1] && q[0].changes <= q[i + 1].changes {}
  }

  /** The counts are listed in non-decreasing order. */
  ghost predicate NonDecreasing(xs: seq<nat>)
  {
    forall i, j :: 0 <= i < j < |xs| ==> xs[i] <= xs[j]
  }

  /** Appending a count no smaller than the last keeps the order. */
  lemma AppendKeepsOrder(xs: seq<nat>, x: nat)
    requires NonDecreasing(xs) && (xs != [] ==> xs[|xs| - 1] <= x)
    ensures NonDecreasing(xs + [x])
  {
    forall i, j | 0 <= i < j < |xs| + 1 ensures (xs + [x])[i] <= (xs + [x])[j] {
      if j == |xs| && i < |xs| - 1 {
        assert xs[i] <= xs[|xs| - 1];
      }
    }
  }

  /** A subset is no larger than its superset. */
  lemma {:induction false} SubsetSize<T>(a: set<T>, b: set<T>)
    requires a <= b
    ensures |a| <= |b|
  {
    if a != {} {
      var x :| x in a;
      SubsetSize(a - {x}, b - {x});
    }
  }

  /**
   * route_logic.py lines 79-98, the expansion of a dequeued entry that is not
   * at the destination: mark its train and station visited, push a ride to
   * every unvisited later stop to the front, then a switch onto every
   * unvisited train at the station to the back. Ghost results: the stations
   * reached by the rides, the trains switched onto and the order in which
   * the switches were pushed.
   */
  method Expand(net: Network, ghost source: Station, e: Entry, q: seq<Entry>,
                visitedStations: set<Station>, visitedTrains: set<Train>)
    returns (q': seq<Entry>, visitedStations': set<Station>, visitedTrains': set<Train>,
             ghost rides: set<Station>, ghost switches: set<Train>, ghost order: seq<Train>)
    requires EntryOk(net, source, e)
    requires FrontierOk(net, source, q, e.changes)
    ensures FrontierOk(net, source, q', e.changes)
    ensures visitedStations' == visitedStations + {e.station} + rides
    ensures visitedTrains' == visitedTrains + {e.train} + switches
    ensures rides == Members(LaterStops(net, e.train, e.station)) - (visitedStations + {e.station})
    ensures switches == TrainsAt(net, e.station) - (visitedTrains + {e.train})
    ensures Members(LaterStops(net, e.train, e.station)) <= visitedStations'
    ensures TrainsAt(net, e.station) <= visitedTrains'
    ensures rides <= Stations(net) && switches <= Trains(net)
    ensures switches == Members(order) && |order| == |switches|
    ensures q' == RideFront(e, FreshStops(LaterStops(net, e.train, e.station), visitedStations + {e.station}))
                  + q + SwitchBack(e, order)
    ensures |q'| == |rides| + |q| + |switches|
  {
    visitedTrains' := visitedTrains + {e.train};
    visitedStations' := visitedStations + {e.station};
    var nexts := LaterStops(net, e.train, e.station);
    var q1;
    q1, visitedStations', rides := PushRides(net, source, e, nexts, q, visitedStations');
    q', visitedTrains', switches, order := PushSwitches(net, source, e, q1, visitedTrains');
    FreshStopsMembers(nexts, visitedStations + {e.station});
    RideFrontEntries(e, FreshStops(nexts, visitedStations + {e.station}));
    SwitchBackEntries(e, order);
    RidesInNetwork(net, e, rides);
    SwitchesInNetwork(net, e, switches);
  }

  /** The stations a ride reaches are stations of the network. */
  lemma RidesInNetwork(net: Network, e: Entry, rides: set<Station>)
    requires rides <= Members(LaterStops(net, e.train, e.station))
    ensures rides <= Stations(net)
  {
    forall s | s in rides ensures s in Stations(net) {
      LaterStopIsStop(net, e.train, e.station, s);
      assert e.train in net.trainStations;
    }
  }

  /** The trains a switch boards are trains of the network. */
  lemma SwitchesInNetwork(net: Network, e: Entry, switches: set<Train>)
    requires switches <= TrainsAt(net, e.station)
    ensures switches <= Trains(net)
  {
    forall t | t in switches ensures t in Trains(net) {
      assert e.station in net.stationTrains;
    }
  }

  /**
   * The count of entries ever enqueued: one per seed train, one per station
   * reached by a ride and one per train switched onto; those stations and
   * trains are visited and belong to the network.
   */
  ghost predicate Budget(net: Network, src: Station, visitedStations: set<Station>, visitedTrains: set<Train>,
                         rideTargets: set<Station>, switchedTo: set<Train>, enqueued: nat)
  {
    && rideTargets <= visitedStations && rideTargets <= Stations(net)
    && switchedTo <= visitedTrains && switchedTo <= Trains(net)
    && enqueued == |TrainsAt(net, src)| + |rideTargets| + |switchedTo|
  }

  /** The count never exceeds seed trains plus stations plus trains. */
  lemma BudgetBound(net: Network, src: Station, visitedStations: set<Station>, visitedTrains: set<Train>,
                    rideTargets: set<Station>, switchedTo: set<Train>, enqueued: nat)
    requires Budget(net, src, visitedStations, visitedTrains, rideTargets, switchedTo, enqueued)
    ensures enqueued <= |TrainsAt(net, src)| + |Stations(net)| + |Trains(net)|
  {
    SubsetSize(rideTargets, Stations(net));
    SubsetSize(switchedTo, Trains(net));
  }

  /** An expansion that reaches only new stations and trains of the network keeps the count. */
  lemma BudgetStep(net: Network, src: Station, visitedStations: set<Station>, visitedTrains: set<Train>,
                   rideTargets: set<Station>, switchedTo: set<Train>, enqueued: nat,
                   visitedStations': set<Station>, visitedTrains': set<Train>,
                   rides: set<Station>, switches: set<Train>)
    requires Budget(net, src, visitedStations, visitedTrains, rideTargets, switchedTo, enqueued)
    requires visitedStations <= visitedStations' && visitedTrains <= visitedTrains'
    requires rides <= visitedStations' && rides !! visitedStations && rides <= Stations(net)
    requires switches <= visitedTrains' && switches !! visitedTrains && switches <= Trains(net)
    ensures Budget(net, src, visitedStations', visitedTrains', rideTargets + rides, switchedTo + switches,
                   enqueued + |rides| + |switches|)
    ensures enqueued + |rides| + |switches| <= |TrainsAt(net, src)| + |Stations(net)| + |Trains(net)|
  {
    assert rideTargets !! rides && switchedTo !! switches;
    BudgetBound(net, src, visitedStations', visitedTrains', rideTargets + rides, switchedTo + switches,
                enqueued + |rides| + |switches|);
  }

  /**
   * route_logic.py lines 51-77: the legs of an entry that stands at the
   * destination are the collapse of its path; they form a journey from the
   * source, one leg per train boarded.
   */
  method Reconstruct(net: Network, ghost src: Station, dst: Station, e: Entry) returns (legs: seq<Leg>)
    requires Coherent(net)
    requires EntryOk(net, src, e) && e.station == dst
    ensures exists bounds :: Collapses(e.path, dst, legs, bounds)
    ensures Journey(net, src, dst, legs)
    ensures |legs| == e.changes
  {
    ghost var bounds;
    legs, bounds := CollapseLegs(e.path, dst);
    CollapsedPathIsJourney(net, src, dst, e.path, legs, bounds);
  }

  /**
   * `find_optimal_route`, route_logic.py lines 29-100. The query codes are upper-cased;
   * equal codes answer zero trains and no legs without searching;
   * otherwise the answer is that of the search between the upper-cased codes.
   */
  method FindOptimalRoute(net: Network, source: string, destination: string)
    returns (res: Option<RouteResult>, ghost path: seq<Hop>, ghost enqueued: nat, ghost popped: seq<nat>)
    requires Coherent(net)
    ensures Upper(source) == Upper(destination) ==> res == Some(RouteResult(0, []))
    ensures Upper(source) != Upper(destination) ==>
              SearchOutcome(net, Upper(source), Upper(destination), res, path, enqueued, popped)
  {
    var src := Upper(source);
    var dst := Upper(destination);
    if src == dst {
      return Some(RouteResult(0, [])), [], 0, [];
    }
    res, path, enqueued, popped := Search(net, src, dst);
  }

  /**
   * What a search between distinct codes answers: None when the source has
   * no trains; on success, a search path to the destination whose collapse
   * is the route, a journey with as many legs as trains boarded, that count being the
   * last of the non-decreasing counts taken from the deque; and never more
   * entries enqueued than seed trains, stations and trains together.
   */
  ghost predicate SearchOutcome(net: Network, src: Station, dst: Station, res: Option<RouteResult>,
                                path: seq<Hop>, enqueued: nat, popped: seq<nat>)
  {
    && (TrainsAt(net, src) == {} ==> res == None)
    && (res.Some? ==>
          && ValidPath(net, src, path)
          && path[|path| - 1].station == dst
          && (exists bounds :: Collapses(path, dst, res.value.route, bounds))
          && res.value.minTrains == 1 + Switches(path) == |res.value.route|
          && Journey(net, src, dst, res.value.route)
          && popped != [] && popped[|popped| - 1] == res.value.minTrains)
    && enqueued <= |TrainsAt(net, src)| + |Stations(net)| + |Trains(net)|
    && NonDecreasing(popped)
  }

  /** A dequeued entry at the destination, reported with its legs, is a successful outcome. */
  lemma Succeeded(net: Network, src: Station, dst: Station, e: Entry, legs: seq<Leg>,
                  enqueued: nat, popped: seq<nat>)
    requires EntryOk(net, src, e) && e.station == dst
    requires exists bounds :: Collapses(e.path, dst, legs, bounds)
    requires Journey(net, src, dst, legs) && |legs| == e.changes
    requires enqueued <= |TrainsAt(net, src)| + |Stations(net)| + |Trains(net)|
    requires NonDecreasing(popped) && popped != [] && popped[|popped| - 1] == e.changes
    ensures SearchOutcome(net, src, dst, Some(RouteResult(e.changes, legs)), e.path, enqueued, popped)
  {
  }

  /** An exhausted deque is a None outcome. */
  lemma Exhausted(net: Network, src: Station, dst: Station, enqueued: nat, popped: seq<nat>)
    requires enqueued <= |TrainsAt(net, src)| + |Stations(net)| + |Trains(net)|
    requires NonDecreasing(popped)
    ensures SearchOutcome(net, src, dst, None, [], enqueued, popped)
  {
  }

  /**
   * route_logic.py lines 51-77: a dequeued entry at the destination is
   * answered with its train count and the collapse of its path.
   */
  method Answer(net: Network, ghost src: Station, dst: Station, e: Entry,
                ghost enqueued: nat, ghost popped: seq<nat>)
    returns (res: Option<RouteResult>, ghost path: seq<Hop>)
    requires Coherent(net)
    requires EntryOk(net, src, e) && e.station == dst
    requires enqueued <= |TrainsAt(net, src)| + |Stations(net)| + |Trains(net)|
    requires NonDecreasing(popped) && popped != [] && popped[|popped| - 1] == e.changes
    ensures res.Some? && res.value.minTrains == e.changes && path == e.path
    ensures SearchOutcome(net, src, dst, res, path, enqueued, popped)
  {
    var legs := Reconstruct(net, src, dst, e);
    res, path := Some(RouteResult(e.changes, legs)), e.path;
    Succeeded(net, src, dst, e, legs, enqueued, popped);
  }

  /**
   * route_logic.py lines 39-100: seed the deque with the source's trains, take entries
   * from the front until one stands at the destination and collapse its
   * path into legs; an exhausted deque answers None.
   *
   * Ghost results: `path` is the winning hop path, `enqueued` counts every
   * entry ever put on the deque, `popped` lists the train counts of the
   * entries taken from it, in order.
   */
  method Search(net: Network, src: Station, dst: Station)
    returns (res: Option<RouteResult>, ghost path: seq<Hop>, ghost enqueued: nat, ghost popped: seq<nat>)
    requires Coherent(net)
    requires src != dst
    ensures SearchOutcome(net, src, dst, res, path, enqueued, popped)
  {
    path, enqueued, popped := [], 0, [];
    var visitedTrains: set<Train> := {};
    var visitedStations: set<Station> := {};
    var queue := SeedFrontier(net, src);

    ghost var level: nat := 1;
    ghost var rideTargets: set<Station> := {};
    ghost var switchedTo: set<Train> := {};
    ghost var bound := |TrainsAt(net, src)| + |Stations(net)| + |Trains(net)|;
    enqueued := |queue|;
    BudgetBound(net, src, visitedStations, visitedTrains, rideTargets, switchedTo, enqueued);

    while queue != []
      invariant FrontierOk(net, src, queue, level)
      invariant Budget(net, src, visitedStations, visitedTrains, rideTargets, switchedTo, enqueued)
      invariant enqueued <= bound
      invariant NonDecreasing(popped) && (popped != [] ==> popped[|popped| - 1] <= level)
      decreases bound - enqueued + |queue|
    {
      var e := queue[0];
      PopKeepsFrontier(net, src, queue, level);
      queue := queue[1..];
      level := e.changes;
      AppendKeepsOrder(popped, e.changes);
      popped := popped + [e.changes];

      if e.station == dst {
        res, path := Answer(net, src, dst, e, enqueued, popped);
        return;
      }

      ghost var rides: set<Station>;
      ghost var switches: set<Train>;
      ghost var order: seq<Train>;
      ghost var stationsBefore, trainsBefore := visitedStations, visitedTrains;
      queue, visitedStations, visitedTrains, rides, switches, order :=
        Expand(net, src, e, queue, visitedStations, visitedTrains);
      BudgetStep(net, src, stationsBefore, trainsBefore, rideTargets, switchedTo, enqueued,
                 visitedStations, visitedTrains, rides, switches);
      rideTargets := rideTargets + rides;
      switchedTo := switchedTo + switches;
      enqueued := enqueued + |rides| + |switches|;
    }
    Exhausted(net, src, dst, enqueued, popped);
    return None, path, enqueued, popped;
  }
}
