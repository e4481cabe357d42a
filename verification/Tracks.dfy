/** Which transceiver a track goes to, and what is true of tracks and senders after every call. */
module Tracks {
  import opened Descriptions
  import opened Transceivers

  predicate Free(v: View, kind: string) {
    v.track == 0 && v.kind == kind
  }

  /** The last transceiver of the kind without a track, or the end. */
  function LastFree(ts: seq<View>, kind: string): (i: nat)
    ensures i <= |ts| && (i < |ts| ==> Free(ts[i], kind))
    ensures forall k :: (0 <= k < |ts| && (i == |ts| || i < k)) ==> !Free(ts[k], kind)
  {
    LastFreeBelow(ts, kind, |ts|)
  }

  function LastFreeBelow(ts: seq<View>, kind: string, n: nat): (i: nat)
    requires n <= |ts|
    ensures i < n || i == |ts|
    ensures i < n ==> Free(ts[i], kind)
    ensures forall k :: (0 <= k < n && (i == |ts| || i < k)) ==> !Free(ts[k], kind)
  {
    if n == 0 then |ts| else if Free(ts[n - 1], kind) then n - 1 else LastFreeBelow(ts, kind, n - 1)
  }

  /** The transceivers when a track has been added. */
  function WithTrack(ts: seq<View>, track: int, kind: string, stream: int, sender: int, bundle: bool): (r: seq<View>) {
    var i := LastFree(ts, kind);
    var v := if i < |ts| then ts[i] else New(kind, ts, bundle);
    Put(ts, i, v.(track := track, stream := stream, sender := sender))
  }

  /** The transceiver of a sender, or the end. */
  function SenderAt(ts: seq<View>, sender: int, n: nat): (i: nat)
    requires n <= |ts|
    ensures n <= i <= |ts| && (i < |ts| ==> ts[i].sender == sender) && forall k :: n <= k < i ==> ts[k].sender != sender
    decreases |ts| - n
  {
    if n == |ts| || ts[n].sender == sender then n else SenderAt(ts, sender, n + 1)
  }

  /** The transceivers when the sender has been removed. */
  function WithoutSender(ts: seq<View>, sender: int): (r: seq<View>) {
    var i := SenderAt(ts, sender, 0);
    if i < |ts| then ts[i := ts[i].(track := 0, stream := 0, sender := 0)] else ts
  }

  function Without(s: seq<int>, x: int): (r: seq<int>) {
    if s == [] then [] else if s[0] == x then s[1..] else [s[0]] + Without(s[1..], x)
  }

  /** A stream goes when no transceiver has it any longer. */
  ghost function StreamsLeft(streams: seq<int>, ts: seq<View>, stream: int): (r: seq<int>) {
    if exists v :: v in ts && v.stream == stream then streams else Without(streams, stream)
  }

  /** The first occurrence goes, and nothing else. */
  lemma {:induction false} WithoutAt(a: seq<int>, x: int, b: seq<int>)
    requires x !in a
    ensures Without(a + [x] + b, x) == a + b
    decreases |a|
  {
    var s := a + [x] + b;
    if a == [] {
      assert s[0] == x && s[1..] == b && a + b == b;
    } else {
      WithoutAt(a[1..], x, b);
      assert s[0] == a[0] && s[1..] == a[1..] + [x] + b && a + b == [a[0]] + (a[1..] + b);
    }
  }

  lemma {:induction false} WithoutKeeps(s: seq<int>, x: int, y: int)
    requires x != y && y in s
    ensures y in Without(s, x)
  {
    if s[0] != x && s[0] != y { WithoutKeeps(s[1..], x, y); }
  }

  // What holds of tracks after every call.

  /** A track and its sender are on one transceiver, and its stream is a local one. */
  predicate Orderly(ts: seq<View>, streams: seq<int>, senders: nat) {
    && (forall i :: 0 <= i < |ts| ==> (ts[i].track == 0 <==> ts[i].sender == 0) && 0 <= ts[i].sender <= senders)
    && (forall i :: 0 <= i < |ts| && ts[i].track == 0 ==> ts[i].stream == 0)
    && (forall i :: 0 <= i < |ts| ==> ts[i].track == 0 || ts[i].stream in streams)
    && (forall i, j :: 0 <= i < j < |ts| && ts[i].track != 0 ==> ts[i].track != ts[j].track && ts[i].sender != ts[j].sender)
  }

  /** No two transceivers share a track or a sender; each with a track has a sender that was
      given out and a local stream, and one without has neither. */
  lemma OrderlyMeans(ts: seq<View>, streams: seq<int>, senders: nat, i: nat, j: nat)
    requires Orderly(ts, streams, senders) && i < |ts| && j < |ts|
    ensures i != j && ts[i].track != 0 ==> ts[i].track != ts[j].track && ts[i].sender != ts[j].sender
    ensures if ts[i].track != 0 then 1 <= ts[i].sender <= senders && ts[i].stream in streams else ts[i].sender == 0 && ts[i].stream == 0
  {
    if i < j { assert ts[i].track != 0 ==> ts[i].track != ts[j].track; }
    if j < i && ts[j].track != 0 { assert ts[j].track != ts[i].track; }
  }

  lemma NoTracksOrderly(ts: seq<View>, r: seq<View>, streams: seq<int>, senders: nat)
    requires Orderly(ts, streams, senders) && NoNewTracks(ts, r)
    ensures Orderly(r, streams, senders)
  {}

  lemma AddedOrderly(ts: seq<View>, streams: seq<int>, senders: nat, track: int, kind: string, stream: int, bundle: bool)
    requires Orderly(ts, streams, senders) && track != 0 && forall v :: v in ts ==> v.track != track
    ensures Orderly(WithTrack(ts, track, kind, stream, senders + 1, bundle),
                    if stream in streams then streams else streams + [stream], senders + 1)
  {}

  lemma RemovedOrderly(ts: seq<View>, streams: seq<int>, senders: nat, sender: int)
    requires Orderly(ts, streams, senders) && sender != 0
    ensures var i, r := SenderAt(ts, sender, 0), WithoutSender(ts, sender);
            i < |ts| ==> Orderly(r, StreamsLeft(streams, r, ts[i].stream), senders)
  {
    var i, r := SenderAt(ts, sender, 0), WithoutSender(ts, sender);
    if i < |ts| && !exists v :: v in r && v.stream == ts[i].stream {
      forall k | 0 <= k < |r| ensures r[k].track == 0 || r[k].stream in Without(streams, ts[i].stream) {
        if r[k].track != 0 {
          assert r[k] in r;
          WithoutKeeps(streams, ts[i].stream, r[k].stream);
        }
      }
    }
  }

  /** Removing the sender that adding a track has returned leaves the transceivers as they
      were, but for the one that may have been made. */
  lemma AddThenRemove(ts: seq<View>, streams: seq<int>, senders: nat, track: int, kind: string, stream: int, bundle: bool)
    requires Orderly(ts, streams, senders)
    ensures var r := WithoutSender(WithTrack(ts, track, kind, stream, senders + 1, bundle), senders + 1);
            r == if LastFree(ts, kind) < |ts| then ts else ts + [New(kind, ts, bundle)]
  {
    NewBlank(kind, ts, bundle);
    hide LastFree, New, Orderly, SenderAt;
    var i := LastFree(ts, kind);
    var v := if i < |ts| then ts[i] else New(kind, ts, bundle);
    if i < |ts| { FreeBlank(ts, streams, senders, i, kind); }
    SendersBelow(ts, streams, senders);
    PutAndBack(ts, i, v, track, stream, senders + 1);
  }

  lemma PutAndBack(ts: seq<View>, i: nat, v: View, track: int, stream: int, sender: int)
    requires i <= |ts| && v.track == 0 && v.stream == 0 && v.sender == 0 && (i < |ts| ==> ts[i] == v)
    requires forall k :: 0 <= k < |ts| ==> ts[k].sender < sender
    ensures WithoutSender(Put(ts, i, v.(track := track, stream := stream, sender := sender)), sender) == Put(ts, i, v)
  {
    hide SenderAt;
    var w := v.(track := track, stream := stream, sender := sender);
    Blanked(v, track, stream, sender);
    PutTwice(ts, i, w, v);
    var t := Put(ts, i, w);
    SenderFound(t, sender, i);
    assert t[i] == w;
    hide Put;
  }

  lemma Blanked(v: View, track: int, stream: int, sender: int)
    requires v.track == 0 && v.stream == 0 && v.sender == 0
    ensures v.(track := track, stream := stream, sender := sender).(track := 0, stream := 0, sender := 0) == v
  {}

  lemma PutTwice<T>(s: seq<T>, i: nat, a: T, b: T)
    requires i <= |s|
    ensures Put(s, i, a)[i := b] == Put(s, i, b)
  {}

  lemma SenderFound(ts: seq<View>, sender: int, i: nat)
    requires i < |ts| && ts[i].sender == sender && forall k :: 0 <= k < i ==> ts[k].sender != sender
    ensures SenderAt(ts, sender, 0) == i
  {}

  lemma FreeBlank(ts: seq<View>, streams: seq<int>, senders: nat, i: nat, kind: string)
    requires Orderly(ts, streams, senders) && i < |ts| && Free(ts[i], kind)
    ensures ts[i].track == 0 && ts[i].stream == 0 && ts[i].sender == 0
  {}

  lemma SendersBelow(ts: seq<View>, streams: seq<int>, senders: nat)
    requires Orderly(ts, streams, senders)
    ensures forall k :: 0 <= k < |ts| ==> ts[k].sender <= senders
  {}

  lemma NewBlank(kind: string, ts: seq<View>, bundle: bool)
    ensures var v := New(kind, ts, bundle); v.track == 0 && v.stream == 0 && v.sender == 0
  {}

  lemma AddedKeeps(ts: seq<View>, track: int, kind: string, stream: int, sender: int, bundle: bool)
    ensures Keeps(ts, WithTrack(ts, track, kind, stream, sender, bundle))
  {}

  lemma RemovedKeeps(ts: seq<View>, sender: int)
    ensures Keeps(ts, WithoutSender(ts, sender))
  {}

  // Descriptions attach no track.

  lemma PreparedNoTracks(ts: seq<View>, s: Lines, i: nat, bundle: bool, generated: string)
    requires IsSection(s) && i <= |ts|
    ensures NoNewTracks(ts, Recycled(ts, i, s[0].kind, bundle)) && NoNewTracks(ts, Prepared(ts, s, i, bundle, generated))
  {
    hide MidOr;
    var a := Recycled(ts, i, s[0].kind, bundle);
    var b := Bundled(a, i, bundle);
    assert NoNewTracks(ts, a) && NoNewTracks(ts, b);
    var c := Reached(b, i, s[0].kind, bundle);
    assert NoNewTracks(ts, c);
  }

  lemma OfferedNoTracks(ts: seq<View>, s: Lines, session: Lines, i: nat, bundle: bool, env: Env, generated: string)
    requires IsSection(s) && i <= |ts|
    ensures NoNewTracks(ts, Offered(ts, s, session, i, bundle, env, generated).ts)
  {
    hide MsidReads, Refused, Readable, HasCandidates, Sends, MidOr, Prepared, Recycled;
    OfferedLength(ts, s, session, i, bundle, env, generated);
    PreparedNoTracks(ts, s, i, bundle, generated);
  }

  lemma {:induction false} OfferedAllNoTracks(ts: seq<View>, sections: seq<Lines>, session: Lines, i: nat, bundle: bool, env: Env,
                                              generate: nat -> string)
    requires i <= |sections| && i <= |ts| && forall k :: 0 <= k < |sections| ==> IsSection(sections[k])
    ensures NoNewTracks(ts, OfferedFrom(ts, sections, session, i, bundle, env, generate).ts)
    decreases |sections| - i
  {
    hide Offered;
    if i < |sections| {
      var r := Offered(ts, sections[i], session, i, bundle, env, generate(i));
      OfferedLength(ts, sections[i], session, i, bundle, env, generate(i));
      OfferedNoTracks(ts, sections[i], session, i, bundle, env, generate(i));
      if r.ok { OfferedAllNoTracks(r.ts, sections, session, i + 1, bundle, env, generate); }
    }
  }

  lemma AnsweredNoTracks(ts: seq<View>, s: Lines, session: Lines, i: nat, bundle: bool, rtx: bool, generated: string)
    requires IsSection(s) && i <= |ts|
    ensures NoNewTracks(ts, Answered(ts, s, session, i, bundle, rtx, generated).ts)
  {
    hide MsidReads, Refused, Readable, AnswerFits, Sends, MidOr;
    AnsweredLength(ts, s, session, i, bundle, rtx, generated);
  }

  lemma {:induction false} AnsweredAllNoTracks(ts: seq<View>, sections: seq<Lines>, session: Lines, i: nat, bundle: bool, rtx: set<nat>,
                                               generate: nat -> string)
    requires i <= |sections| && i <= |ts| && forall k :: 0 <= k < |sections| ==> IsSection(sections[k])
    ensures NoNewTracks(ts, AnsweredFrom(ts, sections, session, i, bundle, rtx, generate).ts)
    decreases |sections| - i
  {
    hide Answered;
    if i < |sections| {
      var r := Answered(ts, sections[i], session, i, bundle, i in rtx, generate(i));
      AnsweredLength(ts, sections[i], session, i, bundle, i in rtx, generate(i));
      AnsweredNoTracks(ts, sections[i], session, i, bundle, i in rtx, generate(i));
      if r.ok { AnsweredAllNoTracks(r.ts, sections, session, i + 1, bundle, rtx, generate); }
    }
  }
}
