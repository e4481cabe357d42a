/** Inputs on which the peer connection does not do what it is for. */
module Failures {
  import opened Descriptions
  import opened Transceivers
  import opened Tracks
  import opened Offers
  import opened PeerConnection
  import opened Negotiation
  import opened Exchange

  const Session: Lines := [Text("v=0")]
  const Bundle: Lines := [Text("v=0"), BundleGroup]

  function Live(kind: string, mid: string): (s: Lines) {
    [MLine(kind, false, "UDP/TLS/RTP/SAVPF"), IceUfrag, IcePwd, MidLine(mid)]
  }

  function WithoutIce(kind: string, mid: string): (s: Lines) {
    [MLine(kind, false, "UDP/TLS/RTP/SAVPF"), MidLine(mid)]
  }

  function DataChannel(mid: string): (s: Lines) {
    [MLine("application", false, "DTLS/SCTP"), MidLine(mid)]
  }

  lemma NoMsid(s: Lines)
    requires forall l :: l in s ==> !l.SsrcMsid?
    ensures MsidReads(s)
  {
    AllValued(s);
  }

  lemma LiveReads(kind: string, mid: string, session: Lines)
    ensures var s := Live(kind, mid);
            IsSection(s) && Mid(s) == mid && MsidReads(s) && Readable(s, session) && !HasCandidates(s) && !Refused(s)
  {
    var s := Live(kind, mid);
    NoMsid(s);
    MidAt(s, 3);
    hide Mid, MsidReads;
    var all := s + session;
    assert all[1] == IceUfrag && all[2] == IcePwd && all[1] in all && all[2] in all;
  }

  lemma WithoutIceReads(kind: string, mid: string)
    ensures var s := WithoutIce(kind, mid); IsSection(s) && MsidReads(s) && !Readable(s, Session) && !Refused(s)
  {
    NoMsid(WithoutIce(kind, mid));
    hide MsidReads;
    assert !HasIce(WithoutIce(kind, mid), Session);
  }

  lemma DataChannelReads(mid: string)
    ensures var s := DataChannel(mid); IsSection(s) && MsidReads(s) && Refused(s)
  {
    NoMsid(DataChannel(mid));
  }

  /** A description of these sections. */
  lemma Sections(session: Lines, sections: seq<Lines>)
    requires session != [] && NoMedia(session) && forall k :: 0 <= k < |sections| ==> IsSection(sections[k])
    ensures MediaSections(session + Concat(sections)) == sections && SplitSections(session + Concat(sections))[0] == session
  {
    hide MediaSections, SplitSections, Concat;
    SectionsBack(session, sections);
    HeaderBack(session, sections);
  }

  // A further offer that breaks off.

  lemma FirstTaken(env: Env, generate: nat -> string)
    requires "audio" in env.kinds
    ensures var r := Remote([], Description(Offer, Session + Concat([Live("audio", "a")])), env, {}, generate); r.ok && |r.ts| == 1
  {
    hide Mid, MsidReads, Readable, HasCandidates, Refused, MediaSections, SplitSections, Concat;
    LiveReads("audio", "a", Session);
    Sections(Session, [Live("audio", "a")]);
    NewOffer(Session + Concat([Live("audio", "a")]), env, generate);
  }

  /** The first section passes, with its mid; the second does not, for lack of ICE lines. */
  lemma SecondThrows(ts: seq<View>, open: seq<Lines>, env: Env, generate: nat -> string)
    requires |ts| == 1 && "audio" in env.kinds && open == [Live("audio", "a")]
    ensures var d := Description(Offer, Session + Concat([Live("audio", "b"), WithoutIce("audio", "c")]));
            !Acceptable(ts, d, env, {}) && !KeepsMids(ts, open, d, env, generate)
  {
    hide Mid, MsidReads, Readable, HasCandidates, Refused, MediaSections, SplitSections, Concat, Lent, Live, WithoutIce;
    var sections := [Live("audio", "b"), WithoutIce("audio", "c")];
    LiveReads("audio", "a", Session);
    LiveReads("audio", "b", Session);
    LiveKind("audio", "b");
    WithoutIceReads("audio", "c");
    Sections(Session, sections);
    assert BundleGroup !in Session;
    assert Passes(ts, sections, 0, Session, false, env) && !Passes(ts, sections, 1, Session, false, env);
    assert FirstThrow(ts, sections, Session, 0, false, env) == 1;
    assert Mid(open[0]) == "a" && MidAfter(ts, sections, Session, 1, 0, generate(0)) == "b";
  }

  /** The open offer stays in place while the transceiver of its only section has got another
      mid. */
  method BrokenReoffer(generate: nat -> string) returns (pc: RTCPeerConnection)
    ensures fresh(pc) && pc.Valid() && pc.signalingState == HaveRemoteOffer && !Aligned(pc.Views(), pc.Offered())
  {
    hide Mid, MsidReads, Readable, HasCandidates, Refused, MediaSections, SplitSections, Concat, Remote, Acceptable, Aligned, Fitting, Live, WithoutIce,
      KeepsMids, Orderly, AllSeen, RTCPeerConnection.Views, RTCPeerConnection.Valid;
    pc := new RTCPeerConnection(Env({"audio"}, true), Balanced);
    var first, second := [Live("audio", "a")], [Live("audio", "b"), WithoutIce("audio", "c")];
    LiveReads("audio", "a", Session);
    Sections(Session, first);
    FirstTaken(pc.env, generate);
    NoneSeen(pc);
    var r := pc.SetRemoteDescription(Description(Offer, Session + Concat(first)), {}, generate);
    FittingAligned(pc.Views(), first);
    ghost var ts := pc.Views();
    SecondThrows(ts, first, pc.env, generate);
    r := Reoffer(pc, Description(Offer, Session + Concat(second)), generate);
  }

  // A section behind a refused first one.

  /** With BUNDLE a live section behind a data channel is taken but cannot be answered: it has
      the transports of the refused one, which are none. */
  method StrandedSection(common: set<nat>, generate: nat -> string) returns (taken: Result, answered: Result)
    ensures taken == Done && answered == TypeError
  {
    hide Mid, MsidReads, Readable, HasCandidates, Refused, MediaSections, SplitSections, Concat, Live, DataChannel, Answers, RefusedKnown,
      RTCPeerConnection.Views, RTCPeerConnection.Valid, AllSeen, Orderly;
    var pc := new RTCPeerConnection(Env({"audio"}, true), Balanced);
    var sections := [DataChannel("d"), Live("audio", "a")];
    DataChannelReads("d");
    LiveReads("audio", "a", Bundle);
    LiveKind("audio", "a");
    Sections(Bundle, sections);
    ghost var answer;
    taken, answered, answer := AnswerFirstOffer(pc, Bundle + Concat(sections), common, generate);
    assert BundleGroup in Bundle && Stranded(sections, 1, true);
    assert Passes([], sections, 0, Bundle, true, pc.env) && Passes([], sections, 1, Bundle, true, pc.env);
  }

  lemma LiveKind(kind: string, mid: string)
    ensures Live(kind, mid)[0].MLine? && Live(kind, mid)[0].kind == kind
  {}

  // An offer that createOffer has not made.

  /** A transceiver that no description has been made for has no gatherer yet. */
  method NoGatherer() returns (r: Result)
    ensures r == TypeError
  {
    hide MediaSections, Concat, Orderly, AllSeen;
    var pc := new RTCPeerConnection(Env({"audio"}, true), Balanced);
    NoneSeen(pc);
    r := pc.AddTrack(1, "audio", 1);
    assert pc.Views()[0] in pc.Views() && !pc.Views()[0].gatherer;
    r := pc.SetLocalDescription(Description(Offer, Session + Concat([Live("audio", "0")])));
  }

  // An answer of another kind.

  lemma KindStays(ts: seq<View>, env: Env, generate: nat -> string)
    requires |ts| == 1 && !ts[0].rejected && ts[0].dtls && "audio" in env.kinds
    ensures var sections := [Live("audio", "0")];
            var r := Remote(ts, Description(Offer, Session + Concat(sections)), env, {}, generate);
            && MediaSections(Session + Concat(sections)) == sections
            && r.ok && |r.ts| == 1 && r.ts[0].kind == ts[0].kind && r.ts[0].mid == "0" && Writable(r.ts[0]) && !r.ts[0].rejected
  {
    hide Mid, MsidReads, Readable, HasCandidates, Refused, MediaSections, SplitSections, Concat, OfferedFrom, Offered, Live;
    var sections := [Live("audio", "0")];
    LiveReads("audio", "0", Session);
    LiveKind("audio", "0");
    Sections(Session, sections);
    assert BundleGroup !in Session;
    OfferedNext(ts, sections, Session, 0, false, env, generate);
    OneStays(ts, sections[0], env, generate(0));
    OfferedEnd(Offered(ts, sections[0], Session, 0, false, env, generate(0)).ts, sections, Session, false, env, generate);
  }

  lemma OneStays(ts: seq<View>, s: Lines, env: Env, generated: string)
    requires |ts| == 1 && !ts[0].rejected && ts[0].dtls
    requires IsSection(s) && MsidReads(s) && Readable(s, Session) && !HasCandidates(s) && !Refused(s) && s[0].kind in env.kinds && Mid(s) == "0"
    ensures var r := Offered(ts, s, Session, 0, false, env, generated);
            r.ok && |r.ts| == 1 && r.ts[0].kind == ts[0].kind && r.ts[0].mid == "0" && Writable(r.ts[0]) && !r.ts[0].rejected
  {
    hide Mid, MsidReads, Readable, HasCandidates, Refused, Sends;
  }

  /** A transceiver with a track of its own keeps its kind: an audio section is answered with
      a video section. */
  method AnswerOfAnotherKind(common: set<nat>, generate: nat -> string) returns (r: Result, answer: Lines)
    ensures r == Done
    ensures var s := MediaSections(answer); |s| == 1 && IsSection(s[0]) && s[0][0].kind == "video" && Mid(s[0]) == "0"
  {
    hide Mid, MediaSections, SplitSections, Concat, Orderly, AllSeen, Live, Remote, AnswerSections, Fitting, AnswerSection, Header, Groups,
      NoMedia, RTCPeerConnection.Valid, RTCPeerConnection.InStep, RTCPeerConnection.Views;
    var pc := new RTCPeerConnection(Env({"audio", "video"}, true), Balanced);
    NoneSeen(pc);
    r := pc.AddTrack(1, "video", 1);
    ghost var ts, offer := pc.Views(), Session + Concat([Live("audio", "0")]);
    KindStays(ts, pc.env, generate);
    r := pc.SetRemoteDescription(Description(Offer, Session + Concat([Live("audio", "0")])), {}, generate);
    ghost var header := AnswerHeader(pc.sessionVersion, pc.usingBundle);
    r, answer := pc.CreateAnswer(common);
    OneVideo(header, pc.Views(), common, answer);
  }

  lemma OneVideo(header: Lines, ts: seq<View>, common: set<nat>, answer: Lines)
    requires |ts| == 1 && !ts[0].rejected && ts[0].kind == "video" && ts[0].mid == "0" && header != [] && NoMedia(header)
    requires answer == header + Concat(AnswerSections(ts, 1, common))
    ensures var s := MediaSections(answer); |s| == 1 && IsSection(s[0]) && s[0][0].kind == "video" && Mid(s[0]) == "0"
  {
    hide Mid, MediaSections, Concat, AnswerSections, AnswerSection;
    AnswerIs(header, ts, 1, common);
  }
}
