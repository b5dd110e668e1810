/**
 * The network index of the route finder: from the schedule rows, each a
 * (station code, train number) pair, one pass builds the set of trains
 * calling at each station and the list of stops of each train, in row order.
 */
module NetworkIndex {

  type Station = string
  type Train = string

  /** One schedule row: (station code, train number). */
  type Row = (Station, Train)

  /** The two lookup maps built from the schedule. */
  datatype Network = Network(
    stationTrains: map<Station, set<Train>>,
    trainStations: map<Train, seq<Station>>)

  /** `station_to_trains.get(s, [])`: the trains calling at `s`, none if unknown. */
  function TrainsAt(net: Network, s: Station): (r: set<Train>)
    ensures s !in net.stationTrains ==> r == {}
    ensures s in net.stationTrains ==> r == net.stationTrains[s]
  {
    if s in net.stationTrains then net.stationTrains[s] else {}
  }

  /** `train_to_stations.get(t, [])`: the stops of `t`, none if unknown. */
  function StopsOf(net: Network, t: Train): (r: seq<Station>)
    ensures t !in net.trainStations ==> r == []
    ensures t in net.trainStations ==> r == net.trainStations[t]
  {
    if t in net.trainStations then net.trainStations[t] else []
  }

  /** Every train calls at every station listed among its stops, and conversely. */
  ghost predicate Coherent(net: Network)
  {
    forall s, t :: t in TrainsAt(net, s) <==> s in StopsOf(net, t)
  }

  /** Every station that occurs in some train's stop list. */
  ghost function Stations(net: Network): set<Station>
  {
    set t, s | t in net.trainStations && s in net.trainStations[t] :: s
  }

  /** Every train that calls at some station. */
  ghost function Trains(net: Network): set<Train>
  {
    set s, t | s in net.stationTrains && t in net.stationTrains[s] :: t
  }

  // ---------------------------------------------------------------------
  // What the index is meant to hold, stated on the rows themselves.

  /** The trains of all rows naming station `s`. */
  ghost function ServedBy(rows: seq<Row>, s: Station): set<Train>
  {
    set r | r in rows && r.0 == s :: r.1
  }

  /** The stations of the rows naming train `t`, in row order, repeats kept. */
  function StopsIn(rows: seq<Row>, t: Train): seq<Station>
  {
    if rows == [] then []
    else StopsIn(rows[..|rows| - 1], t)
         + (if rows[|rows| - 1].1 == t then [rows[|rows| - 1].0] else [])
  }

  /** The number of rows naming train `t`. */
  function RowsOf(rows: seq<Row>, t: Train): nat
  {
    if rows == [] then 0
    else RowsOf(rows[..|rows| - 1], t) + (if rows[|rows| - 1].1 == t then 1 else 0)
  }

  /** A train's stop list keeps one entry per row of that train, repeats included. */
  lemma {:induction false} StopsInLength(rows: seq<Row>, t: Train)
    ensures |StopsIn(rows, t)| == RowsOf(rows, t)
  {
    if rows != [] {
      StopsInLength(rows[..|rows| - 1], t);
    }
  }

  /** Stop lists keep row order: the stops from a later block of rows come after those of an earlier block. */
  lemma {:induction false} StopsInAppend(a: seq<Row>, b: seq<Row>, t: Train)
    ensures StopsIn(a + b, t) == StopsIn(a, t) + StopsIn(b, t)
  {
    if b == [] {
      assert a + b == a;
    } else {
      var last := b[|b| - 1];
      assert (a + b)[..|a + b| - 1] == a + b[..|b| - 1];
      StopsInAppend(a, b[..|b| - 1], t);
    }
  }

  /** `s` is a stop of `t` exactly when some row pairs them. */
  lemma {:induction false} StopsInMember(rows: seq<Row>, t: Train, s: Station)
    ensures s in StopsIn(rows, t) <==> (s, t) in rows
  {
    if rows != [] {
      var init := rows[..|rows| - 1];
      StopsInMember(init, t, s);
      assert rows == init + [rows[|rows| - 1]];
      assert (s, t) in rows <==> (s, t) in init || (s, t) == rows[|rows| - 1];
    }
  }

  /** Both maps describe the same station/train relation as the rows. */
  lemma ServedByDuality(rows: seq<Row>, s: Station, t: Train)
    ensures t in ServedBy(rows, s) <==> s in StopsIn(rows, t)
  {
    StopsInMember(rows, t, s);
    if (s, t) in rows {
      assert t in ServedBy(rows, s);
    }
  }

  /** The rows' station/train relation, as held by a network index. */
  ghost predicate IndexOf(net: Network, rows: seq<Row>)
  {
    && net.stationTrains.Keys == (set r | r in rows :: r.0)
    && net.trainStations.Keys == (set r | r in rows :: r.1)
    && (forall s :: TrainsAt(net, s) == ServedBy(rows, s))
    && (forall t :: StopsOf(net, t) == StopsIn(rows, t))
  }

  /** An index of any rows is coherent. */
  lemma IndexCoherent(net: Network, rows: seq<Row>)
    requires IndexOf(net, rows)
    ensures Coherent(net)
  {
    forall s, t ensures t in TrainsAt(net, s) <==> s in StopsOf(net, t) {
      ServedByDuality(rows, s, t);
    }
  }

  /** Adding one row to an index of the earlier rows gives an index of all of them. */
  lemma IndexExtend(net: Network, rows: seq<Row>, r: Row)
    requires IndexOf(net, rows)
    ensures IndexOf(Network(
      net.stationTrains[r.0 := TrainsAt(net, r.0) + {r.1}],
      net.trainStations[r.1 := StopsOf(net, r.1) + [r.0]]), rows + [r])
  {
    var net' := Network(
      net.stationTrains[r.0 := TrainsAt(net, r.0) + {r.1}],
      net.trainStations[r.1 := StopsOf(net, r.1) + [r.0]]);
    var rows' := rows + [r];
    forall s ensures TrainsAt(net', s) == ServedBy(rows', s) {
      ServedBySnoc(rows, r, s);
    }
    forall t ensures StopsOf(net', t) == StopsIn(rows', t) {
      StopsInSnoc(rows, r, t);
    }
    KeysSnoc(rows, r);
  }

  /** One more row adds its train to its station's trains and nothing else. */
  lemma ServedBySnoc(rows: seq<Row>, r: Row, s: Station)
    ensures ServedBy(rows + [r], s) == ServedBy(rows, s) + (if s == r.0 then {r.1} else {})
  {
  }

  /** One more row appends its station to its train's stops and nothing else. */
  lemma StopsInSnoc(rows: seq<Row>, r: Row, t: Train)
    ensures StopsIn(rows + [r], t) == StopsIn(rows, t) + (if r.1 == t then [r.0] else [])
  {
    assert (rows + [r])[..|rows + [r]| - 1] == rows;
  }

  /** One more row adds its station and its train to the key sets. */
  lemma KeysSnoc(rows: seq<Row>, r: Row)
    ensures (set x | x in rows + [r] :: x.0) == (set x | x in rows :: x.0) + {r.0}
    ensures (set x | x in rows + [r] :: x.1) == (set x | x in rows :: x.1) + {r.1}
  {
  }

  /**
   * The index build: one pass over the rows, adding the train to the
   * station's set and appending the station to the train's stop list.
   */
  method BuildNetwork(rows: seq<Row>) returns (net: Network)
    ensures IndexOf(net, rows)
    ensures Coherent(net)
  {
    net := Network(map[], map[]);
    var i := 0;
    while i < |rows|
      invariant 0 <= i <= |rows|
      invariant IndexOf(net, rows[..i])
    {
      var station, train := rows[i].0, rows[i].1;
      IndexExtend(net, rows[..i], rows[i]);
      net := Network(
        net.stationTrains[station := TrainsAt(net, station) + {train}],
        net.trainStations[train := StopsOf(net, train) + [station]]);
      assert rows[..i + 1] == rows[..i] + [rows[i]];
      i := i + 1;
    }
    assert rows[..i] == rows;
    IndexCoherent(net, rows);
  }
}
