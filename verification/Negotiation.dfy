/** Several calls in a row: runs of any calls, an offer that fails while another is open, an
    offer and its answer, and a whole exchange between two connections. */
module Negotiation {
  import opened Descriptions
  import opened Transceivers
  import opened Tracks
  import opened Offers
  import opened PeerConnection

  // Any run of calls.

  datatype Call =
    | SetLocalCall(d: Description)
    | SetRemoteCall(d: Description, rtx: set<nat>, generate: nat -> string)
    | AddTrackCall(track: int, kind: string, stream: int)
    | RemoveTrackCall(sender: int)
    | CreateOfferCall(audio: Receive, video: Receive, codecs: set<nat>, generate: nat -> string)
    | CreateAnswerCall(common: set<nat>)
    | CloseCall

  /** Tracks and senders are objects. */
  predicate Legal(c: Call) {
    (c.AddTrackCall? ==> c.track != 0) && (c.RemoveTrackCall? ==> c.sender != 0)
  }

  /** A remote offer that has thrown on its way through the sections. */
  predicate Broke(c: Call, r: Result) {
    c.SetRemoteCall? && c.d.ty == Offer && r == TypeError
  }

  /** The signaling state behind a call: that of the description, when it has gone through. */
  function Signaled(s: SignalingState, c: Call, r: Result): (t: SignalingState) {
    match c
    case SetLocalCall(d) => if r != Done then s else if d.ty == Offer then HaveLocalOffer else Stable
    case SetRemoteCall(d, _, _) => if r != Done then s else if d.ty == Offer then HaveRemoteOffer else Stable
    case CloseCall => Closed
    case _ => s
  }

  /** A description is for the signaling state: an offer for a stable connection or one with
      an offer of the same side, an answer for one with an offer of the other side. */
  predicate InTurn(s: SignalingState, c: Call) {
    match c
    case SetLocalCall(d) => if d.ty == Offer then s == Stable || s == HaveLocalOffer else d.ty == Answer && s == HaveRemoteOffer
    case SetRemoteCall(d, _, _) => if d.ty == Offer then s == Stable || s == HaveRemoteOffer else d.ty == Answer && s == HaveLocalOffer
    case _ => s != Closed
  }

  method Perform(pc: RTCPeerConnection, c: Call) returns (r: Result)
    requires pc.Valid() && Legal(c)
    modifies pc, pc.transceivers
    ensures pc.Valid() && (old(pc.InStep()) && !Broke(c, r) ==> pc.InStep())
    ensures pc.isClosed <==> old(pc.isClosed) || c.CloseCall?
    ensures old(pc.isClosed) && !c.CloseCall? ==> r in {InvalidState, Unsupported} && pc.Views() == old(pc.Views())
    ensures pc.signalingState == Signaled(old(pc.signalingState), c, r)
    ensures (c.SetLocalCall? || c.SetRemoteCall?) && !InTurn(old(pc.signalingState), c) ==> r in {InvalidState, Unsupported}
    ensures (c.SetLocalCall? || c.SetRemoteCall?) && InTurn(old(pc.signalingState), c) ==> r in {Done, TypeError}
    ensures pc.NoOthers()
  {
    hide RTCPeerConnection.Valid, RTCPeerConnection.InStep, RTCPeerConnection.Views, AllSeen;
    hide Offering, Remote, WithTrack, LocalOffer, Starts, Concat, SplitSections, MediaSections;
    if pc.isClosed { pc.WhenClosed(); }
    SignalingTable(pc.signalingState);
    pc.NoPranswer();
    var lines;
    match c
    case SetLocalCall(d) => r := pc.SetLocalDescription(d);
    case SetRemoteCall(d, rtx, generate) => r := pc.SetRemoteDescription(d, rtx, generate);
    case AddTrackCall(track, kind, stream) => r := pc.AddTrack(track, kind, stream);
    case RemoveTrackCall(sender) => r := pc.RemoveTrack(sender);
    case CreateOfferCall(audio, video, codecs, generate) => r, lines := pc.CreateOffer(audio, video, codecs, generate);
    case CreateAnswerCall(common) => r, lines := pc.CreateAnswer(common);
    case CloseCall =>
      pc.Close();
      r := Done;
  }

  predicate Closes(calls: seq<Call>) {
    exists k :: 0 <= k < |calls| && calls[k].CloseCall?
  }

  predicate NoneBroke(calls: seq<Call>, results: seq<Result>)
    requires |results| == |calls|
  {
    forall k :: 0 <= k < |calls| ==> !Broke(calls[k], results[k])
  }

  predicate NothingAfterClose(calls: seq<Call>, results: seq<Result>)
    requires |results| == |calls|
  {
    forall j, k :: 0 <= j < k < |calls| && calls[j].CloseCall? && !calls[k].CloseCall? ==>
      results[k] in {InvalidState, Unsupported}
  }

  /** The signaling state behind a run of calls. */
  function SignaledAll(s: SignalingState, calls: seq<Call>, results: seq<Result>): (t: SignalingState)
    requires |results| == |calls|
  {
    if calls == [] then s
    else
      var n := |calls| - 1;
      Signaled(SignaledAll(s, calls[..n], results[..n]), calls[n], results[n])
  }

  /** The descriptions that came in their turn are exactly those neither unsupported nor
      refused for the state that the calls before have led to. */
  predicate AllInTurn(s: SignalingState, calls: seq<Call>, results: seq<Result>)
    requires |results| == |calls|
  {
    forall k :: 0 <= k < |calls| && (calls[k].SetLocalCall? || calls[k].SetRemoteCall?) ==>
      (results[k] in {Done, TypeError} <==> InTurn(SignaledAll(s, calls[..k], results[..k]), calls[k]))
  }

  lemma OneMoreSignaled(s: SignalingState, calls: seq<Call>, results: seq<Result>, i: nat, r: Result)
    requires i < |calls| && |results| == i && AllInTurn(s, calls[..i], results)
    requires var t, c := SignaledAll(s, calls[..i], results), calls[i];
             c.SetLocalCall? || c.SetRemoteCall? ==> (r in {Done, TypeError} <==> InTurn(t, c))
    ensures SignaledAll(s, calls[..i + 1], results + [r]) == Signaled(SignaledAll(s, calls[..i], results), calls[i], r)
    ensures AllInTurn(s, calls[..i + 1], results + [r])
  {
    hide InTurn, Signaled, SignaledAll;
    var cs, rs := calls[..i + 1], results + [r];
    assert cs[..i] == calls[..i] && rs[..i] == results;
    LastSignaled(s, cs, rs);
    forall k | 0 <= k < i + 1 && (cs[k].SetLocalCall? || cs[k].SetRemoteCall?)
      ensures rs[k] in {Done, TypeError} <==> InTurn(SignaledAll(s, cs[..k], rs[..k]), cs[k])
    {
      if k < i {
        assert cs[..k] == calls[..i][..k] && rs[..k] == results[..k] && cs[k] == calls[..i][k] && rs[k] == results[k];
      }
    }
  }

  lemma LastSignaled(s: SignalingState, calls: seq<Call>, results: seq<Result>)
    requires |results| == |calls| > 0
    ensures var n := |calls| - 1;
            SignaledAll(s, calls, results) == Signaled(SignaledAll(s, calls[..n], results[..n]), calls[n], results[n])
  {
    hide Signaled;
  }

  lemma OneMore(calls: seq<Call>, results: seq<Result>, i: nat, r: Result)
    requires i < |calls| && |results| == i
    ensures NoneBroke(calls[..i + 1], results + [r]) <==> NoneBroke(calls[..i], results) && !Broke(calls[i], r)
    ensures Closes(calls[..i + 1]) <==> Closes(calls[..i]) || calls[i].CloseCall?
    ensures NothingAfterClose(calls[..i], results)
         && (Closes(calls[..i]) && !calls[i].CloseCall? ==> r in {InvalidState, Unsupported})
        ==> NothingAfterClose(calls[..i + 1], results + [r])
  {
    hide Broke;
    var c, s := calls[..i + 1], results + [r];
    assert c[i] == calls[i] && s[i] == r && forall k :: 0 <= k < i ==> c[k] == calls[..i][k] && s[k] == results[k];
  }

  /** After any calls the transceivers are in step with the open remote offer, when no remote
      offer threw; no call gets anything done on a closed connection; and the signaling state
      is that of the last description that went through, each of which came in its turn. */
  method PerformAll(pc: RTCPeerConnection, calls: seq<Call>) returns (results: seq<Result>)
    requires pc.Valid() && pc.InStep() && forall k :: 0 <= k < |calls| ==> Legal(calls[k])
    modifies pc, pc.transceivers
    ensures pc.Valid() && |results| == |calls|
    ensures NoneBroke(calls, results) ==> pc.InStep()
    ensures NothingAfterClose(calls, results)
    ensures pc.isClosed <==> old(pc.isClosed) || Closes(calls)
    ensures pc.signalingState == SignaledAll(old(pc.signalingState), calls, results)
    ensures AllInTurn(old(pc.signalingState), calls, results)
  {
    hide RTCPeerConnection.Valid, RTCPeerConnection.InStep, Legal, Broke, NoneBroke, Closes, NothingAfterClose, Signaled, SignaledAll, InTurn,
      AllInTurn;
    NoneSignaled(pc.signalingState);
    results := [];
    NoCalls();
    assert calls[..0] == [];
    for i := 0 to |calls|
      invariant pc.Valid() && |results| == i && pc.NoOthers()
      invariant NoneBroke(calls[..i], results) ==> pc.InStep()
      invariant pc.isClosed <==> old(pc.isClosed) || Closes(calls[..i])
      invariant NothingAfterClose(calls[..i], results)
      invariant pc.signalingState == SignaledAll(old(pc.signalingState), calls[..i], results)
      invariant AllInTurn(old(pc.signalingState), calls[..i], results)
    {
      var r := Perform(pc, calls[i]);
      OneMore(calls, results, i, r);
      OneMoreSignaled(old(pc.signalingState), calls, results, i, r);
      results := results + [r];
    }
    assert calls[..|calls|] == calls;
  }

  lemma NoneSignaled(s: SignalingState)
    ensures SignaledAll(s, [], []) == s && AllInTurn(s, [], [])
  {}

  lemma NoCalls()
    ensures NoneBroke([], []) && NothingAfterClose([], []) && !Closes([])
  {}

  // An offer while another one is open.

  /** The sections of a further offer up to the first that does not pass leave the mids of
      the open one; this, too, can be seen before the call. */
  predicate KeepsMids(ts: seq<View>, open: seq<Lines>, d: Description, env: Env, generate: nat -> string)
    requires |open| <= |ts|
  {
    var session := SplitSections(d.lines)[0];
    SectionsAre(d.lines);
    LeavesMids(ts, open, MediaSections(d.lines), session, BundleGroup in session, env, generate)
  }

  /** A further offer takes the place of the open one exactly when each of its sections
      passes. Otherwise the open one stays, and the transceivers are aligned with it exactly
      when the mids are kept up to the first section that does not pass. */
  method Reoffer(pc: RTCPeerConnection, d: Description, generate: nat -> string) returns (r: Result)
    requires pc.Valid() && pc.signalingState == HaveRemoteOffer && Aligned(pc.Views(), pc.Offered()) && d.ty == Offer
    modifies pc, pc.transceivers
    ensures pc.Valid() && r in {Done, TypeError} && pc.signalingState == HaveRemoteOffer
    ensures r == Done <==> Acceptable(old(pc.Views()), d, pc.env, {})
    ensures r == Done ==> pc.Offered() == MediaSections(d.lines)
    ensures r == TypeError ==> unchanged(pc`remoteDescription)
    ensures |old(pc.Offered())| <= |old(pc.Views())|
    ensures Aligned(pc.Views(), pc.Offered()) <==>
              Acceptable(old(pc.Views()), d, pc.env, {}) || KeepsMids(old(pc.Views()), old(pc.Offered()), d, pc.env, generate)
  {
    hide RTCPeerConnection.Views, AllSeen, Remote, Aligned, Fitting, MediaSections, SplitSections, Acceptable, KeepsMids;
    ghost var was, open := pc.Views(), pc.Offered();
    AlignedSize(was, open);
    if !Acceptable(was, d, pc.env, {}) { FailedReoffer(was, open, d, pc.env, generate); }
    r := pc.SetRemoteDescription(d, {}, generate);
    if r == Done { FittingAligned(pc.Views(), pc.Offered()); }
  }

  lemma AlignedSize(ts: seq<View>, offered: seq<Lines>)
    requires Aligned(ts, offered)
    ensures |offered| <= |ts|
  {
    hide Mid;
  }

  lemma FittingAligned(ts: seq<View>, offered: seq<Lines>)
    requires Fitting(ts, offered)
    ensures Aligned(ts, offered)
  {
    hide Mid, Refused;
  }

  lemma FailedReoffer(ts: seq<View>, open: seq<Lines>, d: Description, env: Env, generate: nat -> string)
    requires d.ty == Offer && Aligned(ts, open) && !Acceptable(ts, d, env, {})
    ensures |open| <= |ts|
    ensures Aligned(Remote(ts, d, env, {}, generate).ts, open) <==> KeepsMids(ts, open, d, env, generate)
  {
    hide OfferedFrom, Mid, LeavesMids, Passes, AnswerPasses, MediaSections, SplitSections;
    SectionsAre(d.lines);
    var sections, session := MediaSections(d.lines), SplitSections(d.lines)[0];
    FailedOffer(ts, open, sections, session, BundleGroup in session, env, generate);
  }

  // An offer and its answer.

  /** The transceiver for a section is of the offered kind: it is new or was of this kind. */
  ghost predicate KindFits(was: seq<View>, s: Lines, i: nat)
    requires IsSection(s)
  {
    Refused(s) || i >= |was| || was[i].rejected || was[i].kind == s[0].kind
  }

  /** What an answer says of the sections it answers. A live section receives exactly when the
      offered one sends, and sends exactly when its transceiver has kept a sender. */
  ghost predicate Answers(offered: seq<Lines>, session: Lines, sections: seq<Lines>, was: seq<View>, common: set<nat>) {
    |sections| == |offered| && forall i :: 0 <= i < |offered| ==>
      && IsSection(offered[i]) && IsSection(sections[i])
      && (Mid(offered[i]) != "" ==> Mid(sections[i]) == Mid(offered[i]))
      && (sections[i][0].kind == offered[i][0].kind <==> KindFits(was, offered[i], i))
      && (sections[i][0].zeroPort <==> Refused(offered[i]) || i !in common)
      && (sections[i][0].protocol == if Refused(offered[i]) && offered[i][0].kind == "application" then offered[i][0].protocol
                                     else "UDP/TLS/RTP/SAVPF")
      && (Says(sections[i], "sendrecv") || Says(sections[i], "recvonly") <==> !Refused(offered[i]) && Sends(offered[i], session))
      && (Says(sections[i], "sendrecv") || Says(sections[i], "sendonly") <==> SenderKept(was, offered[i], i) != 0)
  }

  /** The kinds that createAnswer knows how to refuse. */
  predicate RefusedKnown(offered: seq<Lines>) {
    forall i :: 0 <= i < |offered| ==> IsSection(offered[i]) && (Refused(offered[i]) ==> KnownKind(offered[i][0].kind))
  }

  /** The live sections get transceivers with a transport to answer on. */
  predicate Answerable(ts: seq<View>, offer: Lines) {
    var sections := MediaSections(offer);
    SectionsAre(offer);
    forall k :: 0 <= k < |sections| ==>
      Refused(sections[k]) || Lent(ts, sections, k, BundleGroup in SplitSections(offer)[0]).dtls
  }

  lemma AnswerableAfter(was: seq<View>, offer: Lines, env: Env, generate: nat -> string)
    requires Remote(was, Description(Offer, offer), env, {}, generate).ok
    ensures var ts, n := Remote(was, Description(Offer, offer), env, {}, generate).ts, |MediaSections(offer)|;
            n <= |ts| && (Answerable(was, offer) <==> forall k :: 0 <= k < n ==> Writable(ts[k]))
  {
    hide OfferedFrom, Passes, Lent, MediaSections, SplitSections, Refused, Mid, Aligned;
    SectionsAre(offer);
    var sections, session := MediaSections(offer), SplitSections(offer)[0];
    OfferPasses(was, sections, session, BundleGroup in session, env, generate);
    CompletedOffer(was, sections, session, BundleGroup in session, env, generate);
    var ts := Remote(was, Description(Offer, offer), env, {}, generate).ts;
    forall k | 0 <= k < |sections|
      ensures Writable(ts[k]) <==> Refused(sections[k]) || Lent(was, sections, k, BundleGroup in session).dtls
    {
      assert Fits(ts[k], sections[k]);
    }
  }

  /** An offer and the answer to it: there is one section for each one offered exactly when
      the refused ones are of a known kind; the sections then have the offered mids, and each
      has the offered kind exactly when its transceiver was not one of another kind. Both
      calls get through exactly when each section passes and has a transport to answer on. */
  method OfferThenAnswer(pc: RTCPeerConnection, offer: Lines, common: set<nat>, generate: nat -> string)
    returns (r: Result, answer: Lines)
    requires pc.Valid()
    modifies pc, pc.transceivers
    ensures pc.Valid()
    ensures r == Done <==> Allowed(SetRemote, Offer, old(pc.signalingState))
                           && Acceptable(old(pc.Views()), Description(Offer, offer), pc.env, {}) && Answerable(old(pc.Views()), offer)
    ensures r == Done ==> var offered, sections := MediaSections(offer), MediaSections(answer);
              && (|sections| == |offered| <==> RefusedKnown(offered))
              && (RefusedKnown(offered) ==> Answers(offered, SplitSections(offer)[0], sections, old(pc.Views()), common))
  {
    hide RTCPeerConnection.Views, AllSeen, MediaSections, SplitSections, Remote, Answers, RefusedKnown, AnswerSections, Concat;
    hide Acceptable, Answerable, Writable;
    ghost var was := pc.Views();
    answer := [];
    RemoteAcceptable(was, Description(Offer, offer), pc.env, {}, generate);
    if Acceptable(was, Description(Offer, offer), pc.env, {}) { AnswerableAfter(was, offer, pc.env, generate); }
    r := pc.SetRemoteDescription(Description(Offer, offer), {}, generate);
    if r != Done { return; }
    ghost var ts, version := pc.Views(), pc.sessionVersion;
    r, answer := pc.CreateAnswer(common);
    if r == Done {
      assert answer == AnswerHeader(version, pc.usingBundle) + Concat(AnswerSections(ts, |MediaSections(offer)|, common));
      AnswersOffer(was, offer, pc.env, generate, AnswerHeader(version, pc.usingBundle), common);
    }
  }

  lemma AnswerPort(v: View, common: bool)
    ensures var s := AnswerSection(v, common);
            IsSection(s) ==>
              && (s[0].zeroPort <==> v.rejected || !common)
              && s[0].protocol == if v.rejected && v.kind == "application" then v.protocol else "UDP/TLS/RTP/SAVPF"
  {
    hide Mid;
  }

  lemma AnswersOffer(was: seq<View>, offer: Lines, env: Env, generate: nat -> string, header: Lines, common: set<nat>)
    requires Remote(was, Description(Offer, offer), env, {}, generate).ok && header != [] && NoMedia(header)
    ensures var ts, offered := Remote(was, Description(Offer, offer), env, {}, generate).ts, MediaSections(offer);
            && |offered| <= |ts|
            && var sections := MediaSections(header + Concat(AnswerSections(ts, |offered|, common)));
               && (|sections| == |offered| <==> RefusedKnown(offered))
               && (RefusedKnown(offered) ==> Answers(offered, SplitSections(offer)[0], sections, was, common))
  {
    hide OfferedFrom, MediaSections, SplitSections, Refused, Mid, Concat, AnswerSections, AnswerSection, KnownKind, Aligned, Says, Sends;
    var d := Description(Offer, offer);
    var ts, offered, session := Remote(was, d, env, {}, generate).ts, MediaSections(offer), SplitSections(offer)[0];
    SectionsAre(offer);
    CompletedOffer(was, offered, session, BundleGroup in session, env, generate);
    OfferDirects(was, offered, session, 0, BundleGroup in session, env, generate);
    AnswerIs(header, ts, |offered|, common);
    assert Refusable(ts, |offered|) <==> RefusedKnown(offered) by {
      assert forall i :: 0 <= i < |offered| ==> Fits(ts[i], offered[i]);
    }
    if RefusedKnown(offered) {
      var sections := MediaSections(header + Concat(AnswerSections(ts, |offered|, common)));
      forall i | 0 <= i < |offered|
        ensures && IsSection(sections[i]) && (Mid(offered[i]) != "" ==> Mid(sections[i]) == Mid(offered[i]))
                && (sections[i][0].kind == offered[i][0].kind <==> KindFits(was, offered[i], i))
                && (sections[i][0].zeroPort <==> Refused(offered[i]) || i !in common)
        ensures sections[i][0].protocol == if Refused(offered[i]) && offered[i][0].kind == "application" then offered[i][0].protocol
                                           else "UDP/TLS/RTP/SAVPF"
        ensures Says(sections[i], "sendrecv") || Says(sections[i], "recvonly") <==> !Refused(offered[i]) && Sends(offered[i], session)
        ensures Says(sections[i], "sendrecv") || Says(sections[i], "sendonly") <==> SenderKept(was, offered[i], i) != 0
      {
        assert Fits(ts[i], offered[i]) && ts[i].kind == KindAfter(was, offered[i], i);
        AnswerPort(ts[i], i in common);
        AnswerSays(ts, |offered|, common, i);
      }
    }
  }
}
