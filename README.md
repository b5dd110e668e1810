# Train route finder: network index and 0-1 breadth-first search

This project models the core of a train route finder. The core lives in
`interface_code/route_logic.py` and has two parts.

- **Network index** (`NetworkIndex`, `network_index.dfy`). One pass over the
  schedule rows builds two maps. Each row is a (station code, train number)
  pair.
  - `station_to_trains` maps a station to the set of trains calling there.
  - `train_to_stations` maps a train to its stops, in row order.

  `BuildNetwork` is that loop. It is proved to produce exactly the index
  described by the rows: `ServedBy` for the station map, and `StopsIn`, an
  order-keeping filter, for the stop lists. It is also proved to be
  *coherent*: train `t` calls at `s` exactly when `s` is among `t`'s stops.
- **Route search** (`RouteSearch`, `route_search.dfy`). `find_optimal_route`
  is a 0-1 breadth-first search over (train, station) nodes.
  - A *ride* goes to any stop after the current station's first occurrence
    in the train's stop list. It costs nothing and goes to the front of the
    deque.
  - A *switch* boards another train at the same station. It costs one and
    goes to the back.
  - Stations are marked visited when a ride enqueues them. Trains are marked
    visited when the search switches onto them.
  - When an entry at the destination is dequeued, its hop path is collapsed
    into one leg per train.

  The deque is a `seq<Entry>`: `popleft` takes `q[0]`, `appendleft` prepends,
  `append` appends. The visited sets are `set` variables. The loops over a
  station's trains (lines 44 and 95) iterate a set in no fixed order, so the
  model picks an arbitrary remaining element each time and every property
  holds for every order.

Proved about the search (`FindOptimalRoute`, `Search`, `SearchOutcome`):

- Equal upper-cased codes answer zero trains and no legs.
- A source with no trains answers `None`.
- On success:
  - the winning hop path boards a train at the source, and each later hop is a ride or a switch to a different train;
  - the path ends at the destination;
  - the legs form a continuous journey from the source to the destination;
  - the route is the collapse of that path: its legs cut the path into maximal runs of one train, the last one left at the destination;
  - `minTrains` equals one plus the number of train changes on the path, and also the number of legs.

Each expansion of a dequeued entry is specified block by block. The rides
form one block in front of the old deque: exactly one entry per unvisited
later stop, in reverse order of first position. The switches form one block
behind it: exactly one entry per unvisited train at the station. Every later
stop and every train at the station is visited afterwards.

The search also keeps two ghost records: the counts taken from the deque,
and the number of entries ever enqueued. Its loop invariants show that the
counts never decrease and that the enqueue count stays within (seed trains +
stations + trains), which gives the termination measure. These records are
outputs of the model only, so the contract alone does not tie them to the
run (see "## Left out").

## Model

| member | source | states |
|---|---|---|
| NetworkIndex.TrainsAt | interface_code/route_logic.py:95 | `station_to_trains.get(s, [])`: a station missing from the index has no trains; otherwise its trains are the map's entry |
| NetworkIndex.StopsOf | interface_code/route_logic.py:82 | `train_to_stations.get(t, [])`: a train missing from the index has no stops; otherwise its stops are the map's entry |
| NetworkIndex.BuildNetwork | interface_code/route_logic.py:16-23 | the built maps are exactly the index of the rows (each station's trains are those of its rows; each train's stops are its rows' stations in row order; keys are the stations and trains that occur) and the index is coherent |
| NetworkIndex.IndexExtend | interface_code/route_logic.py:20-23 | adding one row's train to its station's set and its station to its train's list turns an index of the earlier rows into an index of all of them |
| NetworkIndex.ServedBySnoc | interface_code/route_logic.py:22 | one more row adds its train to its own station's trains and changes no other station |
| NetworkIndex.StopsInSnoc | interface_code/route_logic.py:23 | one more row appends its station to its own train's stops and changes no other train |
| NetworkIndex.KeysSnoc | interface_code/route_logic.py:16-23 | one more row adds exactly its station and its train to the two key sets |
| NetworkIndex.StopsInLength | interface_code/route_logic.py:23 | a train's stop list has one entry per row of that train, so repeated stations are kept |
| NetworkIndex.StopsInAppend | interface_code/route_logic.py:19-23 | stop lists keep row order: the stops from a later block of rows follow those of an earlier block |
| NetworkIndex.StopsInMember | interface_code/route_logic.py:19-23 | `s` is among `t`'s stops exactly when some row pairs `s` with `t` |
| NetworkIndex.ServedByDuality | interface_code/route_logic.py:19-23 | `t` is among `s`'s trains exactly when `s` is among `t`'s stops |
| NetworkIndex.IndexCoherent | interface_code/route_logic.py:16-23 | any index of rows is coherent in both directions, which the search relies on |
| RouteSearch.Upper | interface_code/route_logic.py:30-31 | upper-casing keeps the length, turns each lower-case ASCII letter into its capital (code point minus 32), leaves no lower-case letter and changes no other character |
| RouteSearch.FirstIndex | interface_code/route_logic.py:84-87 | `list.index`: present exactly when the station is in the list; then it is a position holding the station with no earlier occurrence |
| RouteSearch.FirstIndexUnique | interface_code/route_logic.py:84 | in a list without repeats, the position `list.index` finds for an element is the only one holding it |
| RouteSearch.FirstIndexAt | interface_code/route_logic.py:84 | an element with no earlier occurrence is found by `list.index` at its own position |
| RouteSearch.FirstIndexPrefix | interface_code/route_logic.py:84 | an element occurring in a prefix is found by `list.index` at the same position in the prefix and in the whole list |
| RouteSearch.NoRepeatsSnoc | interface_code/route_logic.py:90-92 | appending an element not in a list without repeats keeps it without repeats |
| RouteSearch.LaterStops | interface_code/route_logic.py:82-87 | a station that is not a stop of the train (the `ValueError` branch), or an unknown train, gives no rides |
| RouteSearch.LaterStopIsStop | interface_code/route_logic.py:85 | every ride target is a stop of the ridden train |
| RouteSearch.RideForward | interface_code/route_logic.py:84-85 | on a train whose stops do not repeat, a ride ends at a strictly later position than it starts |
| RouteSearch.ExtendPath | interface_code/route_logic.py:89-98 | extending a search path by a ride or a switch gives a search path; only a switch adds a train change |
| RouteSearch.SwitchesSnoc | interface_code/route_logic.py:57 | appending a hop adds one train change exactly when its train differs from the last hop's |
| RouteSearch.RideEntryOk | interface_code/route_logic.py:91 | a ride entry's path is a search path ending at the new station with the same train count |
| RouteSearch.SwitchEntryOk | interface_code/route_logic.py:97 | a switch entry's path is a search path ending on the new train with one more train boarded |
| RouteSearch.PushFrontKeepsFrontier | interface_code/route_logic.py:91 | an entry at the current count pushed to the front keeps the deque sorted and within one of the current count |
| RouteSearch.PushBackKeepsFrontier | interface_code/route_logic.py:97 | an entry at one more than the current count pushed to the back keeps the deque sorted and within one of the current count |
| RouteSearch.PushRide | interface_code/route_logic.py:91 | pushing a ride entry to the front keeps every deque entry valid and the deque sorted |
| RouteSearch.PushSwitch | interface_code/route_logic.py:97 | pushing a switch entry to the back keeps every deque entry valid and the deque sorted |
| RouteSearch.PopKeepsFrontier | interface_code/route_logic.py:49 | the entry taken from the front has the smallest count, and the rest of the deque is within one of that count |
| RouteSearch.AppendKeepsOrder | interface_code/route_logic.py:49 | the counts taken from the deque, in order, stay non-decreasing |
| RouteSearch.SeedFrontier | interface_code/route_logic.py:44-46 | one entry per train calling at the source, each on a distinct train, at the source with the one-hop path and count 1 |
| RouteSearch.FreshStopsMembers | interface_code/route_logic.py:89-92 | the stations a ride pass enqueues are exactly the later stops not visited before it |
| RouteSearch.FreshStopsDistinct | interface_code/route_logic.py:89-92 | a ride pass enqueues each of those stations once |
| RouteSearch.FreshStopsOrder | interface_code/route_logic.py:89-92 | a ride pass enqueues stations in order of their first position in the later stops |
| RouteSearch.FreshStopsSnoc | interface_code/route_logic.py:90-92 | one more later stop is enqueued exactly when it is not yet visited, counting the stations this pass already marked |
| RouteSearch.RideFrontEntries | interface_code/route_logic.py:91 | the front block has one entry per enqueued station, the last enqueued first, each on the ridden train at the same count with the path extended by one hop |
| RouteSearch.RideFrontSnoc | interface_code/route_logic.py:91 | `appendleft` of one more ride entry puts it at the head of the front block |
| RouteSearch.RideFrontOrder | interface_code/route_logic.py:89-92 | the front block holds exactly one ride entry for each unvisited later stop, in reverse order of first position among the later stops |
| RouteSearch.RideFrontKeepsFrontier | interface_code/route_logic.py:89-92 | a block of ride entries to later stops in front of the deque keeps every entry valid and the deque sorted |
| RouteSearch.SwitchBackEntries | interface_code/route_logic.py:97 | the back block has one entry per switched-to train, in switch order, each at the station with one more train and the path extended by one hop |
| RouteSearch.SwitchBackSnoc | interface_code/route_logic.py:97 | `append` of one more switch entry puts it at the end of the back block |
| RouteSearch.SwitchRecorded | interface_code/route_logic.py:96-98 | one more train taken from the station's set is switched to exactly when not yet visited; the switched-to trains stay the distinct, newly visited trains at the station |
| RouteSearch.PushRides | interface_code/route_logic.py:89-92 | the stations newly visited are exactly the later stops not visited before; the new deque is one ride entry per such stop, in reverse order of first position, in front of the old deque, and it stays sorted |
| RouteSearch.PushSwitches | interface_code/route_logic.py:95-98 | the trains newly visited are exactly the trains at the station not visited before; the new deque is the old one followed by exactly one switch entry per such train, each once, and it stays sorted |
| RouteSearch.Expand | interface_code/route_logic.py:79-98 | the popped entry's train and station and every later stop and every train at the station are visited afterwards; the newly visited stations and trains are exactly those not visited before; the deque becomes the ride block, then the old deque, then the switch block; it stays sorted |
| RouteSearch.RidesInNetwork | interface_code/route_logic.py:85-92 | every station a ride enqueues is a station of the network |
| RouteSearch.SwitchesInNetwork | interface_code/route_logic.py:95-98 | every train a switch enqueues is a train of the network |
| RouteSearch.BudgetBound | interface_code/route_logic.py:44-98 | entries enqueued never exceed seed trains plus stations plus trains |
| RouteSearch.BudgetStep | interface_code/route_logic.py:79-98 | an expansion that reaches only new stations and trains of the network keeps the enqueue count within that bound |
| RouteSearch.CloseLeg | interface_code/route_logic.py:57-66 | closing the open leg where the train changes keeps the closed legs cut into maximal runs of one train, each ending at the hop before the change |
| RouteSearch.CloseLastLeg | interface_code/route_logic.py:67-72 | closing the last run at the destination makes the legs a complete collapse of the path |
| RouteSearch.CollapseLegs | interface_code/route_logic.py:53-72 | the legs cut the hop path into maximal runs of one train, each boarded at its first hop and left at its last, the final leg left at the destination; there is one leg per train change plus one |
| RouteSearch.HopOnTrain | interface_code/route_logic.py:44-97 | every hop of a search path stands at a stop of its train |
| RouteSearch.RunMovesForward | interface_code/route_logic.py:84-91 | along a run of one train whose stops do not repeat, each later hop's station is no earlier in the stop list than the run's first |
| RouteSearch.CollapsedPathIsJourney | interface_code/route_logic.py:54-72 | the collapse of a search path ending at the destination is a journey: it starts at the source, ends at the destination, consecutive legs meet at a station and change train, and each leg's ends are stops of its train |
| RouteSearch.Reconstruct | interface_code/route_logic.py:51-77 | the legs for an entry at the destination are the collapse of its path into maximal one-train runs; they form a journey from the source, one leg per train boarded |
| RouteSearch.Succeeded | interface_code/route_logic.py:74-77 | a dequeued entry at the destination, reported with the collapse of its path, meets every success clause of the outcome |
| RouteSearch.Answer | interface_code/route_logic.py:51-77 | an entry dequeued at the destination answers its own train count and the collapse of its path, and that answer is a successful outcome |
| RouteSearch.Exhausted | interface_code/route_logic.py:100 | an emptied deque answers `None` within the enqueue bound |
| RouteSearch.Search | interface_code/route_logic.py:39-100 | for distinct codes: no trains at the source gives `None`. On success, the winning path is a search path to the destination, the route is its collapse and forms a journey, and the train count is one plus its changes and equals the number of legs. The ghost records of counts taken and entries enqueued satisfy the ordering and the bound (these records are ghost outputs; see "## Left out") |
| RouteSearch.FindOptimalRoute | interface_code/route_logic.py:29-100 | equal upper-cased codes answer zero trains and no legs without a search; otherwise the answer satisfies everything `Search` states about the upper-cased codes, so a route returned is the collapse of a search path between them |

## Left out

- Loading the two CSV files and coercing train numbers to strings (`interface_code/route_logic.py:4-13`) is file I/O. The rows are a parameter of `BuildNetwork`.
- `train_no_to_name` (`interface_code/route_logic.py:26`) is presentation data the search never reads.
- `interface_code/interface.py` (the Streamlit page, its CSV loading and name dictionaries) is not part of this model.
- RouteSearch.Upper: only ASCII letters are upper-cased. Python's `str.upper` also maps non-ASCII letters and can change a string's length (for example "ß" becomes "SS"). Station codes are ASCII.
- RouteSearch.CollapsedPathIsJourney: and with it `Reconstruct` and `Search`, through the `Journey` predicate's `LegOnTrain`. "Boarding stop no later than alighting stop" is stated only for trains whose stop list has no repeated station. The code keeps repeated stops, and a ride starts after the station's *first* occurrence (line 84). So on a train with stops B, X, A, B, a search boarding at A can ride to B and then "ride" from B to X, giving a leg from A to X although X comes before A. The model assumes, as a property of the schedule data, that each station appears at most once per train; the code does not check it. The model follows the code, keeps repeats, and states the ordering only where that holds.
- RouteSearch.Search: the returned count is not claimed to be the least possible number of trains, and `None` is not claimed to mean that no route exists. Marking stations visited when a ride enqueues them, and trains when the search switches onto them, prunes (train, station) states that a cheaper or the only route may need.
- RouteSearch.Search: the search requires a coherent index. The source only ever searches the index it built, and `BuildNetwork` ensures coherence.
- The result dictionaries (`"min_trains"`, `"route"`, `"Train_No"`, `"From"`, `"To"`) are the datatypes `RouteResult` and `Leg`. Their key names are not modelled.
- RouteSearch.Search: the winning path, the enqueue count and the sequence of counts taken from the deque are ghost outputs. The source keeps no such record. The contract constrains them but does not fix them: when the source has trains, `None` with an empty path, a count of 0 and no counts taken also meets it. Non-decreasing counts and the enqueue bound are facts that the loop invariants maintain for the records the loop keeps. They are not guarantees a caller could check from the result.
