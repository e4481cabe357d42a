/** Filtering a statistics report by the references between its entries. */
module StatsWalk {
  datatype Value = Text(s: string) | Ids(ids: seq<string>) | Other

  datatype Property = Property(name: string, value: Value)

  /** One entry: its own properties in order, the id apart. */
  datatype Entry = Entry(id: string, properties: seq<Property>)

  /** A map in insertion order, keyed by the ids of its entries. */
  datatype Report = Report(order: seq<string>, entries: map<string, Entry>)

  predicate EndsWith(s: string, suffix: string) {
    |suffix| <= |s| && s[|s| - |suffix|..] == suffix
  }

  lemma EndsWithIs(s: string, suffix: string)
    ensures EndsWith(s, suffix) <==> exists t: string :: s == t + suffix
  {
    if EndsWith(s, suffix) { assert s == s[..|s| - |suffix|] + suffix; }
  }

  /** Keyed by id, and a list wherever a name promises one. */
  ghost predicate WellFormed(r: Report) {
    && (forall id :: id in r.order <==> id in r.entries)
    && (forall id :: id in r.entries ==> r.entries[id].id == id)
    && (forall id, p :: id in r.entries && p in r.entries[id].properties && EndsWith(p.name, "Ids") ==> p.value.Ids?)
  }

  /** The ids that a property refers to. */
  function Targets(p: Property): (ids: seq<string>) {
    if EndsWith(p.name, "Id") then (if p.value.Text? then [p.value.s] else [])
    else if EndsWith(p.name, "Ids") then (if p.value.Ids? then p.value.ids else [])
    else []
  }

  /** Entry a refers to entry b. */
  ghost predicate Refers(r: Report, a: string, b: string) {
    a in r.entries && b in r.entries && exists p :: p in r.entries[a].properties && b in Targets(p)
  }

  ghost predicate Path(r: Report, p: seq<string>) {
    |p| >= 1 && (forall k :: 0 <= k < |p| ==> p[k] in r.entries)
    && forall k :: 0 <= k < |p| - 1 ==> Refers(r, p[k], p[k + 1])
  }

  /** b can be reached from a by following references, none at all included. */
  ghost predicate Reachable(r: Report, a: string, b: string) {
    exists p :: Path(r, p) && p[0] == a && p[|p| - 1] == b
  }

  lemma ReachesItself(r: Report, a: string)
    requires a in r.entries
    ensures Reachable(r, a, a)
  {
    assert Path(r, [a]);
  }

  lemma ReachesFurther(r: Report, a: string, b: string, c: string)
    requires Refers(r, a, b) && Reachable(r, b, c)
    ensures Reachable(r, a, c)
  {
    hide Refers;
    var p :| Path(r, p) && p[0] == b && p[|p| - 1] == c;
    var q := [a] + p;
    assert a in r.entries by { InReport(r, a, b); }
    forall k | 0 <= k < |q| - 1 ensures Refers(r, q[k], q[k + 1]) {
      if k > 0 { assert Refers(r, p[k - 1], p[k - 1 + 1]); }
    }
    assert Path(r, q) && q[0] == a && q[|q| - 1] == c;
  }

  lemma InReport(r: Report, a: string, b: string)
    requires Refers(r, a, b)
    ensures a in r.entries && b in r.entries
  {}

  /** A set that references do not leave holds what can be reached from its members. */
  lemma {:induction false} ClosedHolds(r: Report, s: set<string>, p: seq<string>)
    requires forall a, b :: a in s && Refers(r, a, b) ==> b in s
    requires Path(r, p) && p[0] in s
    ensures p[|p| - 1] in s
    decreases |p|
  {
    hide Refers;
    if |p| > 1 {
      assert Refers(r, p[0], p[0 + 1]);
      var q := p[1..];
      forall k | 0 <= k < |q| - 1 ensures Refers(r, q[k], q[k + 1]) {
        assert Refers(r, p[k + 1], p[k + 1 + 1]);
      }
      ClosedHolds(r, s, q);
    }
  }

  class ResultSet {
    var found: map<string, Entry>

    constructor ()
      ensures found == map[]
    {
      found := map[];
    }

    method Set(ghost r: Report, e: Entry)
      requires Within(r) && e.id in r.entries && r.entries[e.id] == e
      modifies this
      ensures Within(r) && found.Keys == old(found.Keys) + {e.id}
    {
      found := found[e.id := e];
    }

    /** Only entries of the report, under their ids. */
    ghost predicate Within(r: Report)
      reads this
    {
      forall id :: id in found ==> id in r.entries && found[id] == r.entries[id]
    }
  }

  datatype Maybe = None | Some(entry: Entry)

  /** `stats.get(id)` */
  function Get(r: Report, id: string): (e: Maybe) {
    if id in r.entries then Some(r.entries[id]) else None
  }

  /** A walk adds entries that can be reached from the start, and follows all references
      of what it adds, but for those of an entry that is still being walked. */
  ghost predicate Added(r: Report, before: set<string>, now: set<string>, start: set<string>, walking: set<string>) {
    && before <= now
    && (forall id :: id in now - before ==> exists s :: s in start && Reachable(r, s, id))
    && (forall a, b :: a in now - before - walking && Refers(r, a, b) ==> b in now)
  }

  lemma AddedMore(r: Report, s0: set<string>, s1: set<string>, s2: set<string>, id: string, next: set<string>)
    requires Added(r, s0, s1, {id}, {id}) && Added(r, s1, s2, next, {}) && (forall t :: t in next ==> Refers(r, id, t))
    ensures Added(r, s0, s2, {id}, {id})
  {
    hide Refers, Reachable;
    forall x | x in s2 - s0 ensures exists s :: s in {id} && Reachable(r, s, x) {
      if x in s1 {
        assert x in s1 - s0;
      } else {
        assert x in s2 - s1;
        var t :| t in next && Reachable(r, t, x);
        ReachesFurther(r, id, t, x);
      }
      assert id in {id};
    }
    forall a, b | a in s2 - s0 - {id} && Refers(r, a, b) ensures b in s2 {
      if a in s1 { assert a in s1 - s0 - {id}; } else { assert a in s2 - s1 - {}; }
    }
  }

  lemma AddedFirst(r: Report, s: set<string>, id: string)
    requires id in r.entries && id !in s
    ensures Added(r, s, s + {id}, {id}, {id})
  {
    hide Refers, Reachable;
    ReachesItself(r, id);
    assert id in {id};
  }

  lemma AddedNothing(r: Report, s: set<string>, start: set<string>)
    ensures Added(r, s, s, start, {})
  {
    hide Refers, Reachable;
  }

  lemma AddedAll(r: Report, before: set<string>, now: set<string>, id: string)
    requires Added(r, before, now, {id}, {id}) && id in r.entries && id in now
    requires Followed(r, r.entries[id].properties, now)
    ensures Added(r, before, now, {id}, {})
  {
    hide Reachable;
  }

  /** All references of some properties lead into s, or nowhere. */
  ghost predicate Followed(r: Report, properties: seq<Property>, s: set<string>) {
    forall p, b :: p in properties && b in Targets(p) && b in r.entries ==> b in s
  }

  lemma FollowedNone(r: Report, s: set<string>)
    ensures Followed(r, [], s)
  {}

  lemma FollowedMore(r: Report, properties: seq<Property>, i: nat, s: set<string>, s': set<string>)
    requires i < |properties| && s <= s' && Followed(r, properties[..i], s) && AllIn(r, Targets(properties[i]), s')
    ensures Followed(r, properties[..i + 1], s')
  {
    hide Targets;
    assert properties[..i + 1] == properties[..i] + [properties[i]];
  }

  ghost predicate AllIn(r: Report, ids: seq<string>, s: set<string>) {
    forall b :: b in ids && b in r.entries ==> b in s
  }

  lemma AllInMore(r: Report, ids: seq<string>, k: nat, s: set<string>, s': set<string>)
    requires k < |ids| && s <= s' && AllIn(r, ids[..k], s) && (ids[k] in r.entries ==> ids[k] in s')
    ensures AllIn(r, ids[..k + 1], s')
  {
    assert ids[..k + 1] == ids[..k] + [ids[k]];
  }

  function Start(base: Maybe): (s: set<string>) {
    if base.Some? then {base.entry.id} else {}
  }

  method Walk(r: Report, base: Maybe, results: ResultSet)
    requires WellFormed(r) && results.Within(r)
    requires base.Some? ==> base.entry.id in r.entries && r.entries[base.entry.id] == base.entry
    modifies results
    ensures results.Within(r) && Start(base) <= results.found.Keys
    ensures Added(r, old(results.found.Keys), results.found.Keys, Start(base), {})
    decreases |r.entries.Keys - results.found.Keys|, 1
  {
    hide Refers, Reachable, Added, Targets, Followed, EndsWith, AllIn, ResultSet.Within;
    ghost var before := results.found.Keys;
    if base == None || base.entry.id in results.found {
      AddedNothing(r, results.found.Keys, Start(base));
      return;
    }
    var id, properties := base.entry.id, base.entry.properties;
    Fewer(r.entries.Keys, results.found.Keys, id);
    AddedFirst(r, results.found.Keys, id);
    results.Set(r, base.entry);
    var i := 0;
    FollowedNone(r, results.found.Keys);
    assert properties[..i] == [];
    while i < |properties|
      invariant i <= |properties| && results.Within(r) && id in results.found
      invariant Added(r, before, results.found.Keys, {id}, {id})
      invariant |r.entries.Keys - results.found.Keys| < |r.entries.Keys - before|
      invariant Followed(r, properties[..i], results.found.Keys)
    {
      ghost var s := results.found.Keys;
      WalkProperty(r, id, properties[i], results, before);
      FollowedMore(r, properties, i, s, results.found.Keys);
      i := i + 1;
    }
    assert properties[..i] == properties;
    AddedAll(r, before, results.found.Keys, id);
  }

  lemma Fewer(all: set<string>, s: set<string>, id: string)
    requires id in all && id !in s
    ensures |all - (s + {id})| < |all - s|
  {
    assert all - (s + {id}) == all - s - {id};
  }

  lemma Monotone(all: set<string>, s: set<string>, t: set<string>)
    requires s <= t
    ensures |all - t| <= |all - s|
  {
    assert all - s == (all - t) + (all * t - s);
  }

  /** `walkStats(stats, stats.get(id), resultSet)` for each id that the property names */
  method WalkProperty(r: Report, id: string, p: Property, results: ResultSet, ghost before: set<string>)
    requires WellFormed(r) && results.Within(r) && id in r.entries && p in r.entries[id].properties
    requires Added(r, before, results.found.Keys, {id}, {id})
    modifies results
    ensures results.Within(r) && old(results.found.Keys) <= results.found.Keys
    ensures |r.entries.Keys - results.found.Keys| <= |r.entries.Keys - old(results.found.Keys)|
    ensures AllIn(r, Targets(p), results.found.Keys)
    ensures Added(r, before, results.found.Keys, {id}, {id})
    decreases |r.entries.Keys - results.found.Keys|, 3
  {
    hide Reachable, Added, Refers, WellFormed, EndsWith;
    if EndsWith(p.name, "Id") {
      if p.value.Text? { WalkTarget(r, id, p, p.value.s, results, before); }
    } else if EndsWith(p.name, "Ids") {
      ListWhenIds(r, id, p);
      var ids := p.value.ids;
      var k := 0;
      assert AllIn(r, ids[..k], results.found.Keys) && ids[..|ids|] == ids;
      hide AllIn;
      while k < |ids|
        invariant k <= |ids| && results.Within(r) && old(results.found.Keys) <= results.found.Keys
        invariant |r.entries.Keys - results.found.Keys| <= |r.entries.Keys - old(results.found.Keys)|
        invariant AllIn(r, ids[..k], results.found.Keys)
        invariant Added(r, before, results.found.Keys, {id}, {id})
      {
        ghost var s := results.found.Keys;
        WalkTarget(r, id, p, ids[k], results, before);
        AllInMore(r, ids, k, s, results.found.Keys);
        k := k + 1;
      }
    }
  }

  lemma ListWhenIds(r: Report, id: string, p: Property)
    requires WellFormed(r) && id in r.entries && p in r.entries[id].properties && EndsWith(p.name, "Ids")
    ensures p.value.Ids?
  {
    hide EndsWith;
  }

  method WalkTarget(r: Report, id: string, p: Property, target: string, results: ResultSet, ghost before: set<string>)
    requires WellFormed(r) && results.Within(r) && id in r.entries && p in r.entries[id].properties && target in Targets(p)
    requires Added(r, before, results.found.Keys, {id}, {id})
    modifies results
    ensures results.Within(r) && old(results.found.Keys) <= results.found.Keys
    ensures |r.entries.Keys - results.found.Keys| <= |r.entries.Keys - old(results.found.Keys)|
    ensures target in r.entries ==> target in results.found
    ensures Added(r, before, results.found.Keys, {id}, {id})
    decreases |r.entries.Keys - results.found.Keys|, 2
  {
    hide Reachable, Added, Targets;
    Walk(r, Get(r, target), results);
    AddedKeeps(r, old(results.found.Keys), results.found.Keys, Start(Get(r, target)));
    Monotone(r.entries.Keys, old(results.found.Keys), results.found.Keys);
    AddedMore(r, before, old(results.found.Keys), results.found.Keys, id, Start(Get(r, target)));
  }

  lemma AddedKeeps(r: Report, before: set<string>, now: set<string>, start: set<string>)
    requires Added(r, before, now, start, {})
    ensures before <= now
  {}

  // The filter.

  function Find(properties: seq<Property>, name: string): (v: Value) {
    if properties == [] then Other
    else if properties[0].name == name then properties[0].value
    else Find(properties[1..], name)
  }

  /** The property of a name, when an entry has it once. */
  lemma {:induction false} FindIs(properties: seq<Property>, k: nat)
    requires k < |properties| && forall i :: 0 <= i < k ==> properties[i].name != properties[k].name
    ensures Find(properties, properties[k].name) == properties[k].value
  {
    if k > 0 { FindIs(properties[1..], k - 1); }
  }

  predicate IsTrack(e: Entry, track: string) {
    Find(e.properties, "type") == Text("track") && Find(e.properties, "trackIdentifier") == Text(track)
  }

  predicate IsStreamOf(e: Entry, streamType: string, t: string) {
    Find(e.properties, "type") == Text(streamType) && Find(e.properties, "trackId") == Text(t)
  }

  ghost function Streams(r: Report, streamType: string, tracks: seq<string>): (s: set<string>) {
    set id | id in r.entries && exists k :: 0 <= k < |tracks| && IsStreamOf(r.entries[id], streamType, tracks[k])
  }

  lemma MoreStreams(r: Report, streamType: string, tracks: seq<string>, t: string)
    ensures Streams(r, streamType, tracks + [t]) == Streams(r, streamType, tracks) + Streams(r, streamType, [t])
  {
    hide IsStreamOf;
    var all := tracks + [t];
    forall id | id in r.entries
      ensures id in Streams(r, streamType, all) <==> id in Streams(r, streamType, tracks) + Streams(r, streamType, [t])
    {
      if id in Streams(r, streamType, tracks) {
        var k :| 0 <= k < |tracks| && IsStreamOf(r.entries[id], streamType, tracks[k]);
        assert IsStreamOf(r.entries[id], streamType, all[k]);
      }
      if IsStreamOf(r.entries[id], streamType, t) { assert IsStreamOf(r.entries[id], streamType, all[|tracks|]); }
      if IsStreamOf(r.entries[id], streamType, [t][0]) {}
    }
  }

  /** An entry is kept when some stream of the track refers to it, directly or not. */
  ghost predicate Kept(r: Report, track: string, outbound: bool, id: string) {
    exists s, t :: s in r.entries && t in r.entries
      && Find(r.entries[t].properties, "type") == Text("track") && Find(r.entries[t].properties, "trackIdentifier") == Text(track)
      && Find(r.entries[s].properties, "type") == Text(if outbound then "outbound-rtp" else "inbound-rtp")
      && Find(r.entries[s].properties, "trackId") == Text(t) && Reachable(r, s, id)
  }

  lemma KeptBy(r: Report, track: string, outbound: bool, streamType: string, id: string)
    requires streamType == if outbound then "outbound-rtp" else "inbound-rtp"
    ensures Kept(r, track, outbound, id) <==>
            exists s, t :: s in r.entries && t in r.entries && IsTrack(r.entries[t], track)
              && IsStreamOf(r.entries[s], streamType, t) && Reachable(r, s, id)
  {
    hide Reachable, Find;
  }

  datatype Track = NoTrack | Track(id: string)

  method FilterStats(result: Report, track: Track, outbound: bool) returns (filtered: map<string, Entry>)
    requires WellFormed(result)
    ensures forall id :: id in filtered ==> id in result.entries && filtered[id] == result.entries[id]
    ensures forall id :: id in filtered <==> track.Track? && Kept(result, track.id, outbound, id)
  {
    hide Kept, IsTrack, Reachable, Added, Streams, IsStreamOf;
    var streamType := if outbound then "outbound-rtp" else "inbound-rtp";
    var results := new ResultSet();
    if track == NoTrack { return results.found; }
    var tracks: seq<string> := [];
    for i := 0 to |result.order|
      invariant forall t :: t in tracks <==> t in result.order[..i] && IsTrack(result.entries[t], track.id)
    {
      var t := result.order[i];
      if IsTrack(result.entries[t], track.id) { tracks := tracks + [t]; }
    }
    assert result.order[..|result.order|] == result.order;
    NoStreams(result, streamType);
    assert tracks[..0] == [] && results.found.Keys == {};
    for i := 0 to |tracks|
      invariant results.Within(result)
      invariant Streams(result, streamType, tracks[..i]) <= results.found.Keys
      invariant Added(result, {}, results.found.Keys, Streams(result, streamType, tracks[..i]), {})
    {
      WalkStreams(result, streamType, tracks[i], results, Streams(result, streamType, tracks[..i]));
      assert tracks[..i + 1] == tracks[..i] + [tracks[i]];
      MoreStreams(result, streamType, tracks[..i], tracks[i]);
    }
    assert tracks[..|tracks|] == tracks;
    forall id ensures id in results.found <==> Kept(result, track.id, outbound, id) {
      KeptExactly(result, track.id, outbound, streamType, tracks, results.found.Keys, id);
    }
    return results.found;
  }

  lemma NoStreams(r: Report, streamType: string)
    ensures Streams(r, streamType, []) == {} && Added(r, {}, {}, {}, {})
  {}

  /** `result.forEach(function (stats) { if (...) walkStats(result, stats, filteredResult); })` */
  method WalkStreams(r: Report, streamType: string, t: string, results: ResultSet, ghost roots: set<string>)
    requires WellFormed(r) && results.Within(r) && roots <= results.found.Keys
    requires Added(r, {}, results.found.Keys, roots, {})
    modifies results
    ensures results.Within(r) && roots + Streams(r, streamType, [t]) <= results.found.Keys
    ensures Added(r, {}, results.found.Keys, roots + Streams(r, streamType, [t]), {})
  {
    hide Reachable, Added, Refers, IsStreamOf;
    ghost var added: set<string> := {};
    assert roots + added == roots;
    for i := 0 to |r.order|
      invariant results.Within(r) && roots + added <= results.found.Keys
      invariant Added(r, {}, results.found.Keys, roots + added, {})
      invariant forall id :: id in added <==> id in r.order[..i] && IsStreamOf(r.entries[id], streamType, t)
    {
      var id := r.order[i];
      if IsStreamOf(r.entries[id], streamType, t) {
        ghost var s := results.found.Keys;
        Walk(r, Some(r.entries[id]), results);
        AddedRoot(r, s, results.found.Keys, roots + added, id);
        assert roots + added + {id} == roots + (added + {id});
        added := added + {id};
      }
    }
    assert r.order[..|r.order|] == r.order;
    OneStream(r, streamType, t, added);
  }

  lemma OneStream(r: Report, streamType: string, t: string, added: set<string>)
    requires forall id :: id in added <==> id in r.entries && IsStreamOf(r.entries[id], streamType, t)
    ensures added == Streams(r, streamType, [t])
  {
    hide IsStreamOf;
    forall id | id in added ensures id in Streams(r, streamType, [t]) {
      assert IsStreamOf(r.entries[id], streamType, [t][0]);
    }
  }

  lemma AddedRoot(r: Report, s1: set<string>, s2: set<string>, roots: set<string>, id: string)
    requires Added(r, {}, s1, roots, {}) && Added(r, s1, s2, {id}, {})
    ensures s1 <= s2 && Added(r, {}, s2, roots + {id}, {})
  {
    hide Refers, Reachable;
    forall x | x in s2 - {} ensures exists s :: s in roots + {id} && Reachable(r, s, x) {
      if x in s1 {
        assert x in s1 - {};
        var s :| s in roots && Reachable(r, s, x);
        assert s in roots + {id};
      } else {
        assert x in s2 - s1;
        assert id in roots + {id};
      }
    }
    forall a, b | a in s2 - {} - {} && Refers(r, a, b) ensures b in s2 {
      if a in s1 { assert a in s1 - {} - {}; } else { assert a in s2 - s1 - {}; }
    }
  }

  lemma KeptExactly(r: Report, track: string, outbound: bool, streamType: string, tracks: seq<string>, found: set<string>, id: string)
    requires WellFormed(r) && (forall t :: t in tracks <==> t in r.order && IsTrack(r.entries[t], track))
    requires streamType == if outbound then "outbound-rtp" else "inbound-rtp"
    requires var streams := Streams(r, streamType, tracks);
             streams <= found && Added(r, {}, found, streams, {})
    ensures id in found <==> Kept(r, track, outbound, id)
  {
    hide Refers, IsTrack, IsStreamOf, Kept;
    KeptBy(r, track, outbound, streamType, id);
    var streams := Streams(r, streamType, tracks);
    if id in found {
      assert id in found - {};
      var s :| s in streams && Reachable(r, s, id);
      var k :| 0 <= k < |tracks| && IsStreamOf(r.entries[s], streamType, tracks[k]);
      assert tracks[k] in tracks;
    }
    if Kept(r, track, outbound, id) {
      var s, t :| s in r.entries && t in r.entries && IsTrack(r.entries[t], track)
        && IsStreamOf(r.entries[s], streamType, t) && Reachable(r, s, id);
      assert t in tracks;
      var k :| 0 <= k < |tracks| && tracks[k] == t;
      assert s in streams;
      var p :| Path(r, p) && p[0] == s && p[|p| - 1] == id;
      forall a, b | a in found && Refers(r, a, b) ensures b in found { assert a in found - {} - {}; }
      ClosedHolds(r, found, p);
    }
  }
}
