/** What createOffer and createAnswer make of the transceivers, and the sections they write. */
module Offers {
  import opened Descriptions
  import opened Transceivers
  import opened Tracks

  // How many transceivers an offer asks for.

  /** What is missing from createOffer's options, or what they ask for. */
  datatype Receive = Default | Yes | No | Count(n: int)

  function Wanted(r: Receive, n: int): (k: int) {
    match r
    case Default => n
    case Yes => 1
    case No => 0
    case Count(k) => k
  }

  function Occurs(kind: string, ts: seq<View>): (n: nat) {
    if ts == [] then 0 else Occurs(kind, ts[..|ts| - 1]) + if ts[|ts| - 1].kind == kind then 1 else 0
  }

  lemma OccursLast(kind: string, ts: seq<View>, i: nat)
    requires i < |ts|
    ensures Occurs(kind, ts[..i + 1]) == Occurs(kind, ts[..i]) + if ts[i].kind == kind then 1 else 0
  {
    assert ts[..i + 1][..i] == ts[..i];
  }

  lemma OccursMore(kind: string, ts: seq<View>, v: View)
    ensures Occurs(kind, ts + [v]) == Occurs(kind, ts) + if v.kind == kind then 1 else 0
  {
    assert (ts + [v])[..|ts|] == ts;
  }

  lemma {:induction false} OccursSame(kind: string, a: seq<View>, b: seq<View>)
    requires |a| == |b| && forall k :: 0 <= k < |a| ==> a[k].kind == b[k].kind
    ensures Occurs(kind, a) == Occurs(kind, b)
  {
    if a != [] { OccursSame(kind, a[..|a| - 1], b[..|b| - 1]); }
  }

  /** The transceivers up to the number that is asked for still want to receive. */
  predicate StillWanted(ts: seq<View>, i: nat, audio: int, video: int)
    requires i < |ts|
  {
    && (ts[i].kind == "audio" ==> Occurs("audio", ts[..i + 1]) <= audio)
    && (ts[i].kind == "video" ==> Occurs("video", ts[..i + 1]) <= video)
  }

  function CountedDown(ts: seq<View>, audio: int, video: int): (r: seq<View>)
    ensures |r| == |ts|
  {
    seq(|ts|, i requires 0 <= i < |ts| => ts[i].(wantReceive := ts[i].wantReceive && StillWanted(ts, i, audio, video)))
  }

  /** Transceivers that are only to receive, for what is still asked for. */
  function More(ts: seq<View>, audio: int, video: int, bundle: bool): (r: seq<View>)
    decreases (if audio > 0 then audio else 0) + if video > 0 then video else 0
  {
    if audio <= 0 && video <= 0 then ts
    else
      var a := if audio > 0 then ts + [New("audio", ts, bundle)] else ts;
      var v := if video > 0 then a + [New("video", a, bundle)] else a;
      More(v, if audio > 0 then audio - 1 else audio, if video > 0 then video - 1 else video, bundle)
  }

  lemma {:induction false} MoreAre(ts: seq<View>, audio: int, video: int, bundle: bool)
    ensures var r := More(ts, audio, video, bundle);
            && ts <= r && (forall k :: |ts| <= k < |r| ==> r[k].track == 0 && r[k].sender == 0 && r[k].stream == 0)
            && Occurs("audio", r) == Occurs("audio", ts) + (if audio > 0 then audio else 0)
            && Occurs("video", r) == Occurs("video", ts) + (if video > 0 then video else 0)
    decreases (if audio > 0 then audio else 0) + if video > 0 then video else 0
  {
    hide Occurs;
    if audio > 0 || video > 0 {
      var a := if audio > 0 then ts + [New("audio", ts, bundle)] else ts;
      var v := if video > 0 then a + [New("video", a, bundle)] else a;
      if audio > 0 { OccursMore("audio", ts, New("audio", ts, bundle)); OccursMore("video", ts, New("audio", ts, bundle)); }
      if video > 0 { OccursMore("audio", a, New("video", a, bundle)); OccursMore("video", a, New("video", a, bundle)); }
      MoreAre(v, if audio > 0 then audio - 1 else audio, if video > 0 then video - 1 else video, bundle);
    }
  }

  /** What is added is new, of a kind asked for, and has its transports when the first does. */
  lemma {:induction false} MoreNew(ts: seq<View>, audio: int, video: int, bundle: bool, kinds: set<string>)
    requires (audio > 0 ==> "audio" in kinds) && (video > 0 ==> "video" in kinds)
    requires forall v :: v in ts ==> v.dtls && v.kind in kinds
    ensures forall v :: v in More(ts, audio, video, bundle) ==> v.dtls && v.kind in kinds
    decreases (if audio > 0 then audio else 0) + if video > 0 then video else 0
  {
    if audio > 0 || video > 0 {
      var a := if audio > 0 then ts + [New("audio", ts, bundle)] else ts;
      var v := if video > 0 then a + [New("video", a, bundle)] else a;
      MoreNew(v, if audio > 0 then audio - 1 else audio, if video > 0 then video - 1 else video, bundle, kinds);
    }
  }

  lemma {:induction false} MoreHas(ts: seq<View>, audio: int, video: int, bundle: bool)
    ensures var r := More(ts, audio, video, bundle);
            (audio > 0 ==> exists v :: v in r && v.kind == "audio") && (video > 0 ==> exists v :: v in r && v.kind == "video")
  {
    MoreAre(ts, audio, video, bundle);
    if audio > 0 { OccursSome("audio", More(ts, audio, video, bundle)); }
    if video > 0 { OccursSome("video", More(ts, audio, video, bundle)); }
  }

  lemma {:induction false} OccursSome(kind: string, ts: seq<View>)
    requires Occurs(kind, ts) > 0
    ensures exists v :: v in ts && v.kind == kind
  {
    if ts[|ts| - 1].kind == kind {
      assert ts[|ts| - 1] in ts;
    } else {
      OccursSome(kind, ts[..|ts| - 1]);
    }
  }

  // Everything an offer needs is on each transceiver.

  function Equipped(ts: seq<View>, i: nat, bundle: bool, env: Env, generated: string): (r: Step)
    requires i < |ts|
    ensures |r.ts| == |ts|
  {
    var t := Gathered(ts[i := ts[i].(mid := if ts[i].mid != "" then ts[i].mid else generated)], i, bundle);
    if t[i].kind !in env.kinds then Step(t, false, i) else Step(t[i := WithAll(t[i])], true, i)
  }

  function WithAll(v: View): (r: View) {
    v.(receiver := v.receiver || v.wantReceive, local := true, encodings := true)
  }

  function EquippedFrom(ts: seq<View>, i: nat, bundle: bool, env: Env, generate: nat -> string): (r: Step)
    requires i <= |ts|
    ensures |r.ts| == |ts|
    decreases |ts| - i
  {
    if i == |ts| then Step(ts, true, i)
    else
      var r := Equipped(ts, i, bundle, env, generate(i));
      if !r.ok then r else EquippedFrom(r.ts, i + 1, bundle, env, generate)
  }

  /** What equipping leaves: every transceiver keeps what it is and gets what it lacks. */
  lemma {:induction false} EquippedAre(ts: seq<View>, i: nat, bundle: bool, env: Env, generate: nat -> string)
    requires i <= |ts| && (i > 0 ==> ts[0].gatherer)
    ensures var r := EquippedFrom(ts, i, bundle, env, generate);
            && (forall k :: 0 <= k < i ==> r.ts[k] == ts[k])
            && (forall k :: i <= k < |ts| ==> Equips(ts[k], r.ts[k]))
            && (r.ok <==> forall k :: i <= k < |ts| ==> ts[k].kind in env.kinds)
            && (r.ok ==> forall k :: i <= k < |ts| ==> EquippedView(ts[k], r.ts[k], generate(k)))
    decreases |ts| - i
  {
    hide Equipped, Equips, EquippedView;
    if i < |ts| {
      var r := Equipped(ts, i, bundle, env, generate(i));
      EquippedOne(ts, i, bundle, env, generate(i));
      if r.ok { EquippedAre(r.ts, i + 1, bundle, env, generate); } else { AllEquip(ts, r.ts, i); }
    }
  }

  lemma AllEquip(ts: seq<View>, r: seq<View>, i: nat)
    requires |r| == |ts| && i < |ts| && Equips(ts[i], r[i]) && forall k :: 0 <= k < |ts| && k != i ==> r[k] == ts[k]
    ensures forall k :: 0 <= k < |ts| ==> Equips(ts[k], r[k])
  {}

  predicate Equips(v: View, r: View) {
    && r.kind == v.kind && r.rejected == v.rejected && r.protocol == v.protocol && (v.mid != "" ==> r.mid == v.mid)
    && r.track == v.track && r.stream == v.stream && r.sender == v.sender && r.ice == v.ice && r.dtls == v.dtls
    && r.remote == v.remote
    && (v.gatherer ==> r.gatherer) && (v.local ==> r.local) && (v.encodings ==> r.encodings)
  }

  predicate EquippedView(v: View, r: View, generated: string) {
    && r.mid == (if v.mid != "" then v.mid else generated) && r.gatherer && r.local && r.encodings
    && (r.receiver <==> v.receiver || v.wantReceive)
  }

  lemma EquippedOne(ts: seq<View>, i: nat, bundle: bool, env: Env, generated: string)
    requires i < |ts| && (i > 0 ==> ts[0].gatherer)
    ensures var r := Equipped(ts, i, bundle, env, generated);
            && (forall k :: 0 <= k < |ts| && k != i ==> r.ts[k] == ts[k])
            && Equips(ts[i], r.ts[i]) && (r.ok ==> EquippedView(ts[i], r.ts[i], generated))
            && (r.ok <==> ts[i].kind in env.kinds) && r.ts[0].gatherer
  {
    hide Equips, EquippedView, Equipped;
    EquippedIs(ts, i, bundle, env, generated);
    GatheredParts(ts[i], generated);
    EquippedParts(ts[i], generated);
  }

  function WithMid(v: View, generated: string): (r: View) {
    v.(mid := if v.mid != "" then v.mid else generated, gatherer := true)
  }

  lemma EquippedIs(ts: seq<View>, i: nat, bundle: bool, env: Env, generated: string)
    requires i < |ts| && (i > 0 ==> ts[0].gatherer)
    ensures var g := WithMid(ts[i], generated);
            Equipped(ts, i, bundle, env, generated)
            == if ts[i].kind in env.kinds then Step(ts[i := WithAll(g)], true, i) else Step(ts[i := g], false, i)
  {
    hide WithAll, Gathered;
    var v, g := ts[i].(mid := if ts[i].mid != "" then ts[i].mid else generated), WithMid(ts[i], generated);
    GatheredIs(ts, v, i, bundle);
    assert ts[i := g][i] == g && ts[i := g][i := WithAll(g)] == ts[i := WithAll(g)];
  }

  lemma GatheredIs(ts: seq<View>, v: View, i: nat, bundle: bool)
    requires i < |ts| && (i > 0 ==> ts[0].gatherer)
    ensures Gathered(ts[i := v], i, bundle) == ts[i := v.(gatherer := true)]
  {
    if v.gatherer { assert v.(gatherer := true) == v; }
  }

  lemma GatheredParts(v: View, generated: string)
    ensures var g := WithMid(v, generated); Equips(v, g) && g.gatherer
  {}

  lemma EquippedParts(v: View, generated: string)
    ensures var e := WithAll(WithMid(v, generated)); Equips(v, e) && EquippedView(v, e, generated) && e.gatherer
  {}

  // The whole of createOffer.

  /** The transceivers that an offer is going to describe. */
  function Asked(ts: seq<View>, audio: Receive, video: Receive, bundle: bool): (r: seq<View>) {
    var a, v := Wanted(audio, Occurs("audio", ts)), Wanted(video, Occurs("video", ts));
    More(CountedDown(ts, a, v), a - Occurs("audio", ts), v - Occurs("video", ts), bundle)
  }

  function Offering(ts: seq<View>, audio: Receive, video: Receive, bundle: bool, env: Env, generate: nat -> string): (r: Step) {
    EquippedFrom(Asked(ts, audio, video, bundle), 0, bundle, env, generate)
  }

  /** The section of a transceiver can be written. */
  predicate HasTransports(v: View) {
    v.gatherer && v.dtls
  }

  predicate OfferDone(r: Step) {
    r.ok && forall v :: v in r.ts ==> HasTransports(v)
  }

  function Max(a: int, b: int): (m: int) {
    if a < b then b else a
  }

  lemma AskedAre(ts: seq<View>, audio: Receive, video: Receive, bundle: bool)
    ensures var r := Asked(ts, audio, video, bundle);
            && |ts| <= |r|
            && (forall k :: 0 <= k < |ts| ==> r[k] == ts[k].(wantReceive := r[k].wantReceive))
            && (forall k :: |ts| <= k < |r| ==> r[k].track == 0 && r[k].sender == 0 && r[k].stream == 0)
            && Occurs("audio", r) == Max(Occurs("audio", ts), Wanted(audio, Occurs("audio", ts)))
            && Occurs("video", r) == Max(Occurs("video", ts), Wanted(video, Occurs("video", ts)))
  {
    hide Occurs, StillWanted;
    var a, v := Wanted(audio, Occurs("audio", ts)), Wanted(video, Occurs("video", ts));
    var c := CountedDown(ts, a, v);
    OccursSame("audio", ts, c);
    OccursSame("video", ts, c);
    MoreAre(c, a - Occurs("audio", ts), v - Occurs("video", ts), bundle);
    forall k | 0 <= k < |ts| ensures var r := Asked(ts, audio, video, bundle); r[k] == ts[k].(wantReceive := r[k].wantReceive) {
      assert Asked(ts, audio, video, bundle)[k] == c[k];
    }
  }

  lemma OfferingAre(ts: seq<View>, audio: Receive, video: Receive, bundle: bool, env: Env, generate: nat -> string)
    ensures var r := Offering(ts, audio, video, bundle, env, generate).ts;
            && Keeps(ts, r) && NoNewTracks(ts, r)
            && Occurs("audio", r) == Max(Occurs("audio", ts), Wanted(audio, Occurs("audio", ts)))
            && Occurs("video", r) == Max(Occurs("video", ts), Wanted(video, Occurs("video", ts)))
  {
    hide Occurs, Asked, EquippedFrom;
    var a := Asked(ts, audio, video, bundle);
    var r := Offering(ts, audio, video, bundle, env, generate).ts;
    AskedAre(ts, audio, video, bundle);
    EquippedAre(a, 0, bundle, env, generate);
    OccursSame("audio", r, a);
    OccursSame("video", r, a);
    forall k | 0 <= k < |ts|
      ensures r[k].kind == ts[k].kind && Equips(ts[k].(wantReceive := a[k].wantReceive), r[k])
    {
      assert Equips(a[k], r[k]);
    }
  }

  /** How many transceivers of a kind an offer describes: those that are there, and more when
      more are asked for; true asks for one, false for none. */
  function AskedFor(r: Receive, n: nat): (k: int) {
    match r
    case Default | No => n
    case Yes => if n == 0 then 1 else n
    case Count(k) => if k > n then k else n
  }

  lemma OfferingCounts(ts: seq<View>, audio: Receive, video: Receive, bundle: bool, env: Env, generate: nat -> string)
    ensures var r := Offering(ts, audio, video, bundle, env, generate).ts;
            && Occurs("audio", r) == AskedFor(audio, Occurs("audio", ts))
            && Occurs("video", r) == AskedFor(video, Occurs("video", ts))
  {
    hide Occurs, Offering;
    OfferingAre(ts, audio, video, bundle, env, generate);
  }

  /** An offer is made exactly when every transceiver has its DTLS transport and is of a kind
      the browser knows, and so are those that are asked for beyond them. */
  lemma OfferMade(ts: seq<View>, audio: Receive, video: Receive, bundle: bool, env: Env, generate: nat -> string)
    ensures OfferDone(Offering(ts, audio, video, bundle, env, generate)) <==>
            (forall v :: v in ts ==> v.dtls && v.kind in env.kinds)
            && (Wanted(audio, Occurs("audio", ts)) > Occurs("audio", ts) ==> "audio" in env.kinds)
            && (Wanted(video, Occurs("video", ts)) > Occurs("video", ts) ==> "video" in env.kinds)
  {
    hide Occurs, EquippedFrom, More, StillWanted, CountedDown, AllKnown;
    var na, nv := Occurs("audio", ts), Occurs("video", ts);
    var a, v := Wanted(audio, na), Wanted(video, nv);
    var c := CountedDown(ts, a, v);
    KnownDown(ts, a, v, env.kinds);
    KnownMore(c, a - na, v - nv, bundle, env.kinds);
    OfferOf(More(c, a - na, v - nv, bundle), bundle, env, generate);
    KnownAre(ts, env.kinds);
  }

  predicate AllKnown(ts: seq<View>, kinds: set<string>) {
    forall v :: v in ts ==> v.dtls && v.kind in kinds
  }

  lemma KnownAre(ts: seq<View>, kinds: set<string>)
    ensures AllKnown(ts, kinds) <==> forall v :: v in ts ==> v.dtls && v.kind in kinds
  {}

  lemma KnownDown(ts: seq<View>, audio: int, video: int, kinds: set<string>)
    ensures AllKnown(CountedDown(ts, audio, video), kinds) <==> AllKnown(ts, kinds)
  {
    hide Occurs, StillWanted;
    var c := CountedDown(ts, audio, video);
    assert forall k :: 0 <= k < |ts| ==> c[k].dtls == ts[k].dtls && c[k].kind == ts[k].kind;
  }

  lemma KnownMore(ts: seq<View>, audio: int, video: int, bundle: bool, kinds: set<string>)
    ensures AllKnown(More(ts, audio, video, bundle), kinds)
            <==> AllKnown(ts, kinds) && (audio > 0 ==> "audio" in kinds) && (video > 0 ==> "video" in kinds)
  {
    hide Occurs, More;
    MoreAre(ts, audio, video, bundle);
    MoreHas(ts, audio, video, bundle);
    if AllKnown(ts, kinds) && (audio > 0 ==> "audio" in kinds) && (video > 0 ==> "video" in kinds) {
      MoreNew(ts, audio, video, bundle, kinds);
    }
  }

  lemma OfferOf(m: seq<View>, bundle: bool, env: Env, generate: nat -> string)
    ensures OfferDone(EquippedFrom(m, 0, bundle, env, generate)) <==> AllKnown(m, env.kinds)
  {
    hide EquippedFrom;
    var r := EquippedFrom(m, 0, bundle, env, generate);
    EquippedAre(m, 0, bundle, env, generate);
    forall k | 0 <= k < |m| && r.ok ensures HasTransports(r.ts[k]) <==> m[k].dtls {
      assert Equips(m[k], r.ts[k]) && EquippedView(m[k], r.ts[k], generate(k));
    }
    assert OfferDone(r) <==> r.ok && forall k :: 0 <= k < |m| ==> HasTransports(r.ts[k]);
  }

  // The sections.

  function Header(version: nat): (r: Lines)
    ensures r != [] && NoMedia(r)
  {
    [Text("v=0"), Origin(version), Text("s=-"), Text("t=0 0")]
  }

  function Groups(bundle: bool): (r: Lines)
    ensures NoMedia(r)
  {
    (if bundle then [BundleGroup] else []) + [Text("a=ice-options:trickle")]
  }

  function DirectionName(v: View): (d: string) {
    if v.sender != 0 && v.receiver then "sendrecv"
    else if v.sender != 0 then "sendonly"
    else if v.receiver then "recvonly"
    else "inactive"
  }

  /** `writeMediaSection`; without codecs the port is zero. */
  function Written(v: View, codecs: bool): (s: Lines)
    ensures IsSection(s) && s[0].kind == v.kind && Mid(s) == v.mid
  {
    var s := [MLine(v.kind, !codecs, "UDP/TLS/RTP/SAVPF"), IceUfrag, IcePwd, MidLine(v.mid), Direction(DirectionName(v))]
             + if v.sender != 0 then [Msid, SsrcMsid(true)] else [];
    MidAt(s, 3);
    s
  }

  function OfferSection(v: View, codecs: bool): (s: Lines)
    ensures IsSection(s) && s[0].kind == v.kind && Mid(s) == v.mid
  {
    var s := Written(v, codecs) + [Text("a=rtcp-rsize")];
    MidAt(s, 3);
    s
  }

  predicate KnownKind(kind: string) {
    kind in {"audio", "video", "application"}
  }

  /** What createAnswer writes for a transceiver; a rejected one of an unknown kind gets no
      media line. */
  function AnswerSection(v: View, common: bool): (s: Lines) {
    if v.rejected then
      (if v.kind == "application" then [MLine(v.kind, true, v.protocol)]
       else if v.kind == "audio" || v.kind == "video" then [MLine(v.kind, true, "UDP/TLS/RTP/SAVPF")]
       else [])
      + [Direction("inactive"), MidLine(v.mid)]
    else Written(v, common)
  }

  /** The section of a transceiver in an answer can be written. */
  predicate Writable(v: View) {
    v.rejected || (v.local && v.remote && v.encodings && v.gatherer && v.dtls)
  }

  lemma AnswerSectionIs(v: View, common: bool)
    ensures var s := AnswerSection(v, common);
            if v.rejected && !KnownKind(v.kind) then NoMedia(s)
            else IsSection(s) && s[0].kind == v.kind && (v.rejected ==> s[0].zeroPort) && Mid(s) == v.mid
  {
    if v.rejected && KnownKind(v.kind) { MidAt(AnswerSection(v, common), 2); }
  }

  function AnswerSections(ts: seq<View>, n: nat, common: set<nat>): (r: seq<Lines>)
    requires n <= |ts|
    ensures |r| == n && forall k :: 0 <= k < n ==> r[k] == AnswerSection(ts[k], k in common)
  {
    seq(n, k requires 0 <= k < n => AnswerSection(ts[k], k in common))
  }

  function OfferSections(ts: seq<View>, codecs: set<nat>): (r: seq<Lines>)
    ensures |r| == |ts| && forall k :: 0 <= k < |ts| ==> r[k] == OfferSection(ts[k], k in codecs)
  {
    seq(|ts|, k requires 0 <= k < |ts| => OfferSection(ts[k], k in codecs))
  }

  /** What a section says of its media and its track: the port is zero without codecs, and a
      track goes with exactly one msid line. */
  lemma WrittenIs(v: View, codecs: bool, tail: Lines)
    requires forall l :: l in tail ==> l.Text?
    ensures var s := Written(v, codecs) + tail;
            s[0] == MLine(v.kind, !codecs, "UDP/TLS/RTP/SAVPF") && multiset(s)[Msid] == if v.sender != 0 then 1 else 0
  {
    hide Mid, IsSection, DirectionName;
    var head := [MLine(v.kind, !codecs, "UDP/TLS/RTP/SAVPF"), IceUfrag, IcePwd, MidLine(v.mid), Direction(DirectionName(v))];
    var more := if v.sender != 0 then [Msid, SsrcMsid(true)] else [];
    assert Written(v, codecs) + tail == head + more + tail;
    TextIsNoMsid(tail);
    assert multiset(head)[Msid] == 0;
  }

  lemma {:induction false} TextIsNoMsid(s: Lines)
    requires forall l :: l in s ==> l.Text?
    ensures multiset(s)[Msid] == 0
  {
    if s != [] {
      TextIsNoMsid(s[1..]);
      assert s[0] in s && s == [s[0]] + s[1..];
    }
  }

  /** A refused section is answered with port zero, and a refused data channel in its own
      protocol. */
  lemma RefusedAnswer(v: View, common: bool)
    requires v.rejected && KnownKind(v.kind)
    ensures AnswerSection(v, common)[0] == MLine(v.kind, true, if v.kind == "application" then v.protocol else "UDP/TLS/RTP/SAVPF")
  {}

  /** What the session part says. */
  lemma HeaderIs(version: nat, bundle: bool)
    ensures var h := Header(version) + Groups(bundle);
            && h[0] == Text("v=0") && h[1] == Origin(version) && (forall n :: Origin(n) in h ==> n == version)
            && h[2] == Text("s=-") && h[3] == Text("t=0 0") && Text("a=ice-options:trickle") in h
            && (BundleGroup in h <==> bundle)
  {}

  /** What a written section says of the direction. */
  lemma WrittenSays(v: View, codecs: bool, tail: Lines)
    ensures var s := Written(v, codecs) + tail;
            && (Says(s, "sendrecv") <==> v.sender != 0 && v.receiver) && (Says(s, "sendonly") <==> v.sender != 0 && !v.receiver)
            && (Says(s, "recvonly") <==> v.sender == 0 && v.receiver) && (Says(s, "inactive") <==> v.sender == 0 && !v.receiver)
  {
    hide Mid, Says;
    var s := Written(v, codecs) + tail;
    assert FirstDirection(s, 4);
    SaysOnly(s, 4, "sendrecv");
    SaysOnly(s, 4, "sendonly");
    SaysOnly(s, 4, "recvonly");
    SaysOnly(s, 4, "inactive");
  }

  /** The direction in each section of an offer is that of the transceiver: it sends exactly
      when there is a sender and receives exactly when there is a receiver. */
  lemma OfferSays(ts: seq<View>, codecs: set<nat>, k: nat)
    requires k < |ts|
    ensures var s := OfferSections(ts, codecs)[k];
            && (Says(s, "sendrecv") || Says(s, "sendonly") <==> ts[k].sender != 0)
            && (Says(s, "sendrecv") || Says(s, "recvonly") <==> ts[k].receiver)
            && (Says(s, "inactive") <==> ts[k].sender == 0 && !ts[k].receiver)
  {
    hide Written, Says;
    WrittenSays(ts[k], k in codecs, [Text("a=rtcp-rsize")]);
  }

  /** The same of each live section of an answer; a refused one is inactive. */
  lemma AnswerSays(ts: seq<View>, n: nat, common: set<nat>, k: nat)
    requires k < n <= |ts|
    ensures var s := AnswerSections(ts, n, common)[k];
            if ts[k].rejected then Says(s, "inactive") && !Says(s, "sendrecv") && !Says(s, "sendonly") && !Says(s, "recvonly")
            else
              && (Says(s, "sendrecv") || Says(s, "sendonly") <==> ts[k].sender != 0)
              && (Says(s, "sendrecv") || Says(s, "recvonly") <==> ts[k].receiver)
              && (Says(s, "inactive") <==> ts[k].sender == 0 && !ts[k].receiver)
  {
    hide Written, Says;
    var s := AnswerSections(ts, n, common)[k];
    if ts[k].rejected {
      var at := if KnownKind(ts[k].kind) then 1 else 0;
      assert FirstDirection(s, at);
      SaysOnly(s, at, "sendrecv");
      SaysOnly(s, at, "sendonly");
      SaysOnly(s, at, "recvonly");
      SaysOnly(s, at, "inactive");
    } else {
      WrittenSays(ts[k], k in common, []);
      assert Written(ts[k], k in common) + [] == s;
    }
  }

  /** The kinds that createAnswer knows how to refuse. */
  predicate Refusable(ts: seq<View>, n: nat)
    requires n <= |ts|
  {
    forall k :: 0 <= k < n && ts[k].rejected ==> KnownKind(ts[k].kind)
  }

  lemma {:induction false} AnswerCount(ts: seq<View>, n: nat, common: set<nat>)
    requires n <= |ts|
    ensures var m := MediaLines(Concat(AnswerSections(ts, n, common))); m <= n && (m == n <==> Refusable(ts, n))
  {
    hide AnswerSection, MediaLines, Concat;
    if n == 0 {
      NoConcat();
      NoMediaCount([]);
    } else {
      var s := AnswerSection(ts[n - 1], n - 1 in common);
      AnswerCount(ts, n - 1, common);
      assert AnswerSections(ts, n, common) == AnswerSections(ts, n - 1, common) + [s];
      ConcatLast(AnswerSections(ts, n - 1, common), s);
      MediaAppend(Concat(AnswerSections(ts, n - 1, common)), s);
      AnswerSectionIs(ts[n - 1], n - 1 in common);
      if IsSection(s) { OneMedia(s); } else { NoMediaCount(s); }
    }
  }

  lemma OneMedia(s: Lines)
    requires IsSection(s)
    ensures MediaLines(s) == 1
  {
    NoMediaCount(s[1..]);
  }

  /** What an answer says: it has a section for each of the first n transceivers exactly when
      none of them is a refused one of an unknown kind, and then each has its kind and mid. */
  lemma AnswerIs(header: Lines, ts: seq<View>, n: nat, common: set<nat>)
    requires n <= |ts| && header != [] && NoMedia(header)
    ensures var sections := MediaSections(header + Concat(AnswerSections(ts, n, common)));
            && |sections| <= n
            && (|sections| == n <==> Refusable(ts, n))
            && (Refusable(ts, n) ==> forall k :: 0 <= k < n ==>
                  && IsSection(sections[k]) && sections[k][0].kind == ts[k].kind && Mid(sections[k]) == ts[k].mid
                  && (ts[k].rejected ==> sections[k][0].zeroPort) && sections[k] == AnswerSection(ts[k], k in common))
  {
    hide MediaSections, MediaLines, Concat, Mid, KnownKind, AnswerSection;
    var all := AnswerSections(ts, n, common);
    SectionCount(header, Concat(all));
    AnswerCount(ts, n, common);
    if Refusable(ts, n) {
      forall k | 0 <= k < n ensures IsSection(all[k]) { AnswerSectionIs(ts[k], k in common); }
      SectionsBack(header, all);
      forall k | 0 <= k < n ensures all[k][0].kind == ts[k].kind && Mid(all[k]) == ts[k].mid && (ts[k].rejected ==> all[k][0].zeroPort) {
        AnswerSectionIs(ts[k], k in common);
      }
    }
  }

  lemma OfferIs(header: Lines, ts: seq<View>, codecs: set<nat>)
    requires header != [] && NoMedia(header)
    ensures MediaSections(header + Concat(OfferSections(ts, codecs))) == OfferSections(ts, codecs)
    ensures SplitSections(header + Concat(OfferSections(ts, codecs)))[0] == header
  {
    hide MediaSections, SplitSections, Concat, OfferSection;
    SectionsBack(header, OfferSections(ts, codecs));
    HeaderBack(header, OfferSections(ts, codecs));
  }
}
