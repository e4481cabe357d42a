/** Offer and answer (RFC 3264) on the peer connection shim: the objects, and each call
    against what Transceivers, Tracks and Offers say of it. */
module PeerConnection {
  import opened Descriptions
  import opened Transceivers
  import opened Tracks
  import opened Offers

  datatype DescriptionType = Offer | Answer | Pranswer

  datatype Description = Description(ty: DescriptionType, lines: Lines)

  datatype SignalingState = Stable | HaveLocalOffer | HaveRemoteOffer | HaveLocalPranswer | HaveRemotePranswer | Closed

  datatype Action = SetLocal | SetRemote

  predicate Allowed(a: Action, ty: DescriptionType, s: SignalingState)
    requires ty != Pranswer
  {
    match ty
    case Offer => s == Stable || s == if a == SetLocal then HaveLocalOffer else HaveRemoteOffer
    case Answer => s in (if a == SetLocal then {HaveRemoteOffer, HaveLocalPranswer} else {HaveLocalOffer, HaveRemotePranswer})
  }

  /** Offers are for a stable connection or replace an offer of the same side; answers go with
      an offer of the other side, or after a provisional answer of the same. */
  lemma SignalingTable(s: SignalingState)
    ensures Allowed(SetLocal, Offer, s) <==> s == Stable || s == HaveLocalOffer
    ensures Allowed(SetRemote, Offer, s) <==> s == Stable || s == HaveRemoteOffer
    ensures Allowed(SetLocal, Answer, s) <==> s == HaveRemoteOffer || s == HaveLocalPranswer
    ensures Allowed(SetRemote, Answer, s) <==> s == HaveLocalOffer || s == HaveRemotePranswer
  {}

  /** How a call ends. */
  datatype Result = Done | Unsupported | InvalidState | InvalidAccess | TypeError

  datatype BundlePolicy = Balanced | MaxCompat | MaxBundle

  datatype Maybe<T> = None | Some(v: T)

  class Transceiver {
    var kind: string
    var mid: string
    var rejected: bool
    var protocol: string
    var track: int
    var stream: int
    var rtpSender: int
    var rtpReceiver: bool
    var wantReceive: bool
    var iceGatherer: bool
    var iceTransport: bool
    var dtlsTransport: bool
    var localCapabilities: bool
    var sendEncodingParameters: bool
    var remoteCapabilities: bool

    function Seen(): (v: View)
      reads this
    {
      View(kind, mid, rejected, protocol, track, stream, rtpSender, rtpReceiver, wantReceive, iceGatherer, iceTransport,
           dtlsTransport, localCapabilities, sendEncodingParameters, remoteCapabilities)
    }

    constructor (kind: string, ice: bool, dtls: bool)
      ensures Seen() == View(kind, "", false, "", 0, 0, 0, false, true, false, ice, dtls, false, false, false)
    {
      this.kind, mid, rejected, protocol, track, stream, rtpSender := kind, "", false, "", 0, 0, 0;
      rtpReceiver, wantReceive, iceGatherer, iceTransport, dtlsTransport := false, true, false, ice, dtls;
      localCapabilities, sendEncodingParameters, remoteCapabilities := false, false, false;
    }

    constructor Placeholder(mid: string, kind: string, protocol: string)
      ensures Seen() == Transceivers.Placeholder(mid, kind, protocol)
    {
      this.kind, this.mid, rejected, this.protocol, track, stream, rtpSender := kind, mid, true, protocol, 0, 0, 0;
      rtpReceiver, wantReceive, iceGatherer, iceTransport, dtlsTransport := false, false, false, false, false;
      localCapabilities, sendEncodingParameters, remoteCapabilities := false, false, false;
    }

    method Carry(track: int, stream: int, sender: int)
      modifies this
      ensures Seen() == old(Seen()).(track := track, stream := stream, sender := sender)
    {
      this.track, this.stream, rtpSender := track, stream, sender;
    }

    method Name(generated: string)
      modifies this
      ensures Seen() == old(Seen()).(mid := if old(mid) != "" then old(mid) else generated)
    {
      if mid == "" { mid := generated; }
    }

    method Want(still: bool)
      modifies this
      ensures Seen() == old(Seen()).(wantReceive := old(wantReceive) && still)
    {
      if !still { wantReceive := false; }
    }

    /** What createOffer sets last. */
    method Complete()
      modifies this
      ensures Seen() == WithAll(old(Seen()))
    {
      if wantReceive { rtpReceiver := true; }
      localCapabilities, sendEncodingParameters := true, true;
    }

    /** What a remote offer sets last. */
    method Describe(sends: bool, capable: bool)
      modifies this
      ensures Seen() == Described(old(Seen()), sends, capable)
    {
      rtpReceiver, localCapabilities, sendEncodingParameters, remoteCapabilities := sends, capable, true, true;
    }

    /** What a remote answer's section does to a live transceiver. */
    method Accept(s: Lines, session: Lines, i: nat, usingBundle: bool, rtx: bool) returns (done: bool)
      modifies this
      ensures Seen() == Accepted(old(Seen()), s, session, i, usingBundle, rtx)
      ensures done == AnswerFits(old(Seen()), s, session, i, usingBundle, rtx)
    {
      hide HasCandidates, Sends;
      remoteCapabilities := true;
      if HasCandidates(s) && !iceTransport { return false; }
      if (!usingBundle || i == 0) && (!iceTransport || !dtlsTransport) { return false; }
      if !localCapabilities || (!rtx && !sendEncodingParameters) { return false; }
      if rtpReceiver && Sends(s, session) && !sendEncodingParameters { return false; }
      rtpReceiver := rtpReceiver && Sends(s, session);
      return true;
    }
  }

  ghost function AllSeen(ts: seq<Transceiver>): (r: seq<View>)
    reads ts
    ensures |r| == |ts| && forall i :: 0 <= i < |r| ==> r[i] == ts[i].Seen()
  {
    seq(|ts|, i requires 0 <= i < |ts| reads ts => ts[i].Seen())
  }

  /** What a remote description makes of the transceivers. */
  function Remote(ts: seq<View>, d: Description, env: Env, rtx: set<nat>, generate: nat -> string): (r: Step) {
    var sections, session := MediaSections(d.lines), SplitSections(d.lines)[0];
    SectionsAre(d.lines);
    if d.ty == Offer then OfferedFrom(ts, sections, session, 0, BundleGroup in session, env, generate)
    else AnsweredFrom(ts, sections, session, 0, BundleGroup in session, rtx, generate)
  }

  /** A remote description goes through, seen before the call: section by section, from what
      the section says and what the transceivers have. */
  predicate Acceptable(ts: seq<View>, d: Description, env: Env, rtx: set<nat>) {
    var sections, session := MediaSections(d.lines), SplitSections(d.lines)[0];
    SectionsAre(d.lines);
    forall k :: 0 <= k < |sections| ==>
      if d.ty == Offer then Passes(ts, sections, k, session, BundleGroup in session, env)
      else AnswerPasses(ts, sections, k, session, BundleGroup in session, rtx)
  }

  lemma RemoteAcceptable(ts: seq<View>, d: Description, env: Env, rtx: set<nat>, generate: nat -> string)
    ensures Remote(ts, d, env, rtx, generate).ok <==> Acceptable(ts, d, env, rtx)
  {
    hide OfferedFrom, AnsweredFrom, Passes, AnswerPasses, MediaSections, SplitSections;
    var sections, session := MediaSections(d.lines), SplitSections(d.lines)[0];
    SectionsAre(d.lines);
    if d.ty == Offer {
      OfferPasses(ts, sections, session, BundleGroup in session, env, generate);
    } else {
      AnswerPassesAll(ts, ts, sections, session, 0, BundleGroup in session, rtx, generate);
    }
  }

  function AfterRemote(ty: DescriptionType): (s: SignalingState) {
    if ty == Offer then HaveRemoteOffer else Stable
  }

  function AfterLocal(ty: DescriptionType): (s: SignalingState) {
    if ty == Offer then HaveLocalOffer else Stable
  }

  /** A local answer starts what the remote offer's sections need. */
  ghost predicate Starts(ts: seq<View>, offer: Lines, bundle: bool) {
    var sections, session := MediaSections(offer), SplitSections(offer)[0];
    |sections| <= |ts| && forall i :: 0 <= i < |sections| ==> IsSection(sections[i]) && Startable(ts[i], sections[i], session, i, bundle)
  }

  class RTCPeerConnection {
    const env: Env
    const policy: BundlePolicy
    var transceivers: seq<Transceiver>
    var usingBundle: bool
    var signalingState: SignalingState
    var isClosed: bool
    var remoteDescription: Maybe<Description>
    var localDescription: Maybe<Description>
    var localStreams: seq<int>
    var senders: nat
    var sessionVersion: nat

    /** The transceivers are distinct objects. */
    ghost predicate Whole()
      reads `transceivers
    {
      forall i, j :: 0 <= i < j < |transceivers| ==> transceivers[i] != transceivers[j]
    }

    ghost function Views(): (r: seq<View>)
      reads `transceivers, transceivers
      ensures |r| == |transceivers| && forall i :: 0 <= i < |r| ==> r[i] == transceivers[i].Seen()
    {
      AllSeen(transceivers)
    }

    /** The sections of the remote description. */
    ghost function Offered(): (r: seq<Lines>)
      reads this
    {
      if remoteDescription.Some? then MediaSections(remoteDescription.v.lines) else []
    }

    ghost predicate Valid()
      reads this, transceivers
    {
      && Whole() && (isClosed <==> signalingState == Closed)
      && signalingState != HaveLocalPranswer && signalingState != HaveRemotePranswer
      && (signalingState == HaveRemoteOffer ==>
            remoteDescription.Some? && remoteDescription.v.ty == Offer && |Offered()| <= |transceivers|)
      && Orderly(Views(), localStreams, senders)
    }

    /** While a remote offer is open, the transceivers stand for its sections in order. */
    ghost predicate InStep()
      reads this, transceivers
    {
      signalingState == HaveRemoteOffer ==> Fitting(Views(), Offered())
    }

    constructor (env: Env, policy: BundlePolicy)
      ensures Valid() && InStep() && transceivers == [] && signalingState == Stable && this.env == env && this.policy == policy
      ensures senders == 0 && localStreams == [] && usingBundle == (policy == MaxBundle)
    {
      this.env, this.policy, usingBundle := env, policy, policy == MaxBundle;
      transceivers, signalingState, isClosed, remoteDescription, localDescription := [], Stable, false, None, None;
      localStreams, senders, sessionVersion := [], 0, 0;
    }

    // Transceivers.

    /** `_createTransceiver(kind, doNotAdd)` */
    method CreateTransceiver(kind: string, doNotAdd: bool) returns (t: Transceiver)
      requires Whole()
      modifies `transceivers
      ensures fresh(t) && Whole() && transceivers == old(transceivers) + if doNotAdd then [] else [t]
      ensures t.Seen() == New(kind, old(Views()), usingBundle)
    {
      if usingBundle && |transceivers| > 0 {
        t := new Transceiver(kind, transceivers[0].iceTransport, transceivers[0].dtlsTransport);
      } else {
        t := new Transceiver(kind, true, true);
      }
      if !doNotAdd { transceivers := transceivers + [t]; }
    }

    /** The objects are those of before, but maybe for a new one at i. */
    twostate predicate SameObjects(i: nat)
      reads `transceivers
    {
      transceivers == old(transceivers)
      || (i <= |old(transceivers)| && i < |transceivers| && fresh(transceivers[i])
          && transceivers == Put(old(transceivers), i, transceivers[i]))
    }

    twostate predicate NoOthers()
      reads `transceivers
    {
      forall k :: 0 <= k < |transceivers| ==> transceivers[k] in old(transceivers) || fresh(transceivers[k])
    }

    /** A rejected transceiver gives way to a refused section's placeholder or to a new one. */
    method Replace(i: nat, t: Transceiver)
      requires Whole() && i <= |transceivers| && t !in transceivers
      modifies `transceivers
      ensures Whole() && Views() == Put(old(Views()), i, t.Seen())
      ensures transceivers == Put(old(transceivers), i, t)
    {
      transceivers := if i < |transceivers| then transceivers[i := t] else transceivers + [t];
    }

    /** One transceiver's fields have changed. */
    twostate lemma OneChanged(new i: nat)
      requires old(allocated(this)) && i < |transceivers| && transceivers == old(transceivers)
      requires forall k :: 0 <= k < |transceivers| && k != i ==> transceivers[k].Seen() == old(transceivers[k].Seen())
      ensures Views() == old(Views())[i := transceivers[i].Seen()]
    {}

    method Recycle(i: nat, kind: string)
      requires Whole() && i <= |transceivers|
      modifies `transceivers
      ensures Whole() && Views() == Recycled(old(Views()), i, kind, usingBundle)
      ensures SameObjects(i) && (i == |old(transceivers)| ==> transceivers == old(transceivers))
    {
      if i < |transceivers| && transceivers[i].rejected {
        var t := CreateTransceiver(kind, true);
        Replace(i, t);
      }
    }

    /** With BUNDLE a later transceiver takes the transports of the first. */
    method Share(i: nat)
      requires Whole() && i <= |transceivers|
      modifies if i < |transceivers| then {transceivers[i]} else {}
      ensures Views() == Bundled(old(Views()), i, usingBundle)
    {
      if usingBundle && 0 < i < |transceivers| {
        var t, first := transceivers[i], transceivers[0];
        assert t != first;
        t.iceGatherer, t.iceTransport, t.dtlsTransport := first.iceGatherer, first.iceTransport, first.dtlsTransport;
      }
    }

    method Reach(i: nat, kind: string)
      requires Whole() && i <= |transceivers|
      modifies `transceivers
      ensures Whole() && i < |transceivers| && Views() == Reached(old(Views()), i, kind, usingBundle)
      ensures SameObjects(i) && (i < |old(transceivers)| ==> transceivers == old(transceivers))
    {
      if i == |transceivers| { var t := CreateTransceiver(kind, false); }
    }

    /** `if (!transceiver.iceGatherer) transceiver.iceGatherer = pc._createIceGatherer(i, usingBundle)` */
    method Gather(i: nat)
      requires Whole() && i < |transceivers|
      modifies transceivers[i]
      ensures Views() == Gathered(old(Views()), i, usingBundle)
    {
      var t := transceivers[i];
      if !t.iceGatherer {
        t.iceGatherer := if usingBundle && i > 0 then transceivers[0].iceGatherer else true;
      }
    }

    /** A live section's transceiver: a recycled one, one that is there, or a new one. */
    method Position(i: nat, kind: string)
      requires Whole() && i <= |transceivers|
      modifies `transceivers, if i < |transceivers| then {transceivers[i]} else {}
      ensures Whole() && SameObjects(i) && i < |transceivers|
      ensures Views() == Reached(Bundled(Recycled(old(Views()), i, kind, usingBundle), i, usingBundle), i, kind, usingBundle)
    {
      hide Bundled, Reached, Recycled, AllSeen;
      Recycle(i, kind);
      Share(i);
      Reach(i, kind);
    }

    /** Gives a section its transceiver, with the mid and the transports. */
    method PrepareOne(s: Lines, i: nat, generated: string)
      requires IsSection(s) && Whole() && i <= |transceivers|
      modifies `transceivers, if i < |transceivers| then {transceivers[i]} else {}
      ensures Whole() && SameObjects(i) && i < |transceivers|
      ensures Views() == Prepared(old(Views()), s, i, usingBundle, generated)
    {
      hide Bundled, Reached, Gathered, Recycled, MidOr, AllSeen;
      Position(i, s[0].kind);
      label Reached:
      transceivers[i].mid := MidOr(s, generated);
      OneChanged@Reached(i);
      Gather(i);
    }

    /** One section of a remote offer; the result says whether it went through. */
    method ApplyOffered(s: Lines, session: Lines, i: nat, generated: string) returns (done: bool)
      requires IsSection(s) && Whole() && i <= |transceivers|
      modifies `transceivers, if i < |transceivers| then {transceivers[i]} else {}
      ensures Whole() && NoOthers()
      ensures var r := Transceivers.Offered(old(Views()), s, session, i, usingBundle, env, generated); Views() == r.ts && done == r.ok
    {
      hide MsidReads, Refused, Readable, HasCandidates, Sends, MidOr, Prepared, Recycled, Described, AllSeen, AnswerFits;
      if !MsidReads(s) { return false; }
      if Refused(s) {
        var t := new Transceiver.Placeholder(MidOr(s, generated), s[0].kind, s[0].protocol);
        Replace(i, t);
        return true;
      }
      if !Readable(s, session) {
        Recycle(i, s[0].kind);
        return false;
      }
      PrepareOne(s, i, generated);
      var t := transceivers[i];
      done := s[0].kind in env.kinds;
      if (HasCandidates(s) && !t.iceTransport) || (!done && !env.recent) { return false; }
      label Prepared:
      t.Describe(Sends(s, session), done);
      OneChanged@Prepared(i);
    }

    /** The sections from i on lead to the end of the whole offer. */
    ghost predicate OfferLeads(sections: seq<Lines>, session: Lines, i: nat, generate: nat -> string, end: Step)
      reads this, transceivers
    {
      && i <= |sections| && i <= |transceivers| && (forall k :: 0 <= k < |sections| ==> IsSection(sections[k]))
      && OfferedFrom(Views(), sections, session, i, usingBundle, env, generate) == end
    }

    method NextOffered(sections: seq<Lines>, session: Lines, i: nat, generate: nat -> string, ghost end: Step) returns (done: bool)
      requires Whole() && i < |sections| && OfferLeads(sections, session, i, generate, end)
      modifies `transceivers, if i < |transceivers| then {transceivers[i]} else {}
      ensures Whole() && NoOthers()
      ensures if done then OfferLeads(sections, session, i + 1, generate, end) else !end.ok && Views() == end.ts
    {
      hide Transceivers.Offered, OfferedFrom, IsSection, AllSeen, RTCPeerConnection.Views, Whole, NoOthers;
      OfferedNext(Views(), sections, session, i, usingBundle, env, generate);
      done := ApplyOffered(sections[i], session, i, generate(i));
    }

    lemma OfferLed(sections: seq<Lines>, session: Lines, generate: nat -> string, end: Step)
      requires OfferLeads(sections, session, |sections|, generate, end)
      ensures end.ok && Views() == end.ts
    {
      hide Transceivers.Offered, AllSeen;
    }

    /** The sections of a remote offer, up to the first that throws. */
    method ApplyOffer(sections: seq<Lines>, session: Lines, generate: nat -> string) returns (done: bool)
      requires Whole() && forall i :: 0 <= i < |sections| ==> IsSection(sections[i])
      modifies `transceivers, transceivers
      ensures Whole() && NoOthers()
      ensures var r := OfferedFrom(old(Views()), sections, session, 0, usingBundle, env, generate); Views() == r.ts && done == r.ok
    {
      ghost var end := OfferedFrom(Views(), sections, session, 0, usingBundle, env, generate);
      assert OfferLeads(sections, session, 0, generate, end);
      hide OfferedFrom, IsSection, AllSeen, RTCPeerConnection.Views, Whole, OfferLeads;
      var i := 0;
      while i < |sections|
        invariant i <= |sections| && Whole() && NoOthers() && OfferLeads(sections, session, i, generate, end)
      {
        done := NextOffered(sections, session, i, generate, end);
        if !done { return; }
        i := i + 1;
      }
      OfferLed(sections, session, generate, end);
      return true;
    }

    /** One section of a remote answer. */
    method ApplyAnswered(s: Lines, session: Lines, i: nat, rtx: bool, generated: string) returns (done: bool)
      requires IsSection(s) && Whole() && i <= |transceivers|
      modifies `transceivers, if i < |transceivers| then {transceivers[i]} else {}
      ensures Whole() && NoOthers()
      ensures var r := Answered(old(Views()), s, session, i, usingBundle, rtx, generated); Views() == r.ts && done == r.ok
    {
      hide MsidReads, Refused, Readable, HasCandidates, Sends, MidOr, Bundled, Recycled, Accepted, AnswerFits, AllSeen;
      if !MsidReads(s) { return false; }
      if Refused(s) {
        var t := new Transceiver.Placeholder(MidOr(s, generated), s[0].kind, s[0].protocol);
        Replace(i, t);
        return true;
      }
      Recycle(i, s[0].kind);
      if !Readable(s, session) { return false; }
      Share(i);
      if i == |transceivers| { return false; }
      label Shared:
      done := transceivers[i].Accept(s, session, i, usingBundle, rtx);
      OneChanged@Shared(i);
    }

    /** The sections from i on lead to the end of the whole answer. */
    ghost predicate AnswerLeads(sections: seq<Lines>, session: Lines, i: nat, rtx: set<nat>, generate: nat -> string, end: Step)
      reads this, transceivers
    {
      && i <= |sections| && i <= |transceivers| && (forall k :: 0 <= k < |sections| ==> IsSection(sections[k]))
      && AnsweredFrom(Views(), sections, session, i, usingBundle, rtx, generate) == end
    }

    method NextAnswered(sections: seq<Lines>, session: Lines, i: nat, rtx: set<nat>, generate: nat -> string, ghost end: Step)
      returns (done: bool)
      requires Whole() && i < |sections| && AnswerLeads(sections, session, i, rtx, generate, end)
      modifies `transceivers, if i < |transceivers| then {transceivers[i]} else {}
      ensures Whole() && NoOthers()
      ensures if done then AnswerLeads(sections, session, i + 1, rtx, generate, end) else !end.ok && Views() == end.ts
    {
      hide Answered, AnsweredFrom, IsSection, AllSeen, RTCPeerConnection.Views, Whole, NoOthers;
      AnsweredNext(Views(), sections, session, i, usingBundle, rtx, generate);
      done := ApplyAnswered(sections[i], session, i, i in rtx, generate(i));
    }

    lemma AnswerLed(sections: seq<Lines>, session: Lines, rtx: set<nat>, generate: nat -> string, end: Step)
      requires AnswerLeads(sections, session, |sections|, rtx, generate, end)
      ensures end.ok && Views() == end.ts
    {
      hide Answered, AllSeen;
    }

    method ApplyAnswer(sections: seq<Lines>, session: Lines, rtx: set<nat>, generate: nat -> string) returns (done: bool)
      requires Whole() && forall i :: 0 <= i < |sections| ==> IsSection(sections[i])
      modifies `transceivers, transceivers
      ensures Whole() && NoOthers()
      ensures var r := AnsweredFrom(old(Views()), sections, session, 0, usingBundle, rtx, generate); Views() == r.ts && done == r.ok
    {
      ghost var end := AnsweredFrom(Views(), sections, session, 0, usingBundle, rtx, generate);
      assert AnswerLeads(sections, session, 0, rtx, generate, end);
      hide AnsweredFrom, IsSection, AllSeen, RTCPeerConnection.Views, Whole, AnswerLeads;
      var i := 0;
      while i < |sections|
        invariant i <= |sections| && Whole() && NoOthers() && AnswerLeads(sections, session, i, rtx, generate, end)
      {
        done := NextAnswered(sections, session, i, rtx, generate, end);
        if !done { return; }
        i := i + 1;
      }
      AnswerLed(sections, session, rtx, generate, end);
      return true;
    }

    method ApplyRemote(description: Description, rtx: set<nat>, generate: nat -> string) returns (done: bool)
      requires Whole()
      modifies `usingBundle, `transceivers, transceivers
      ensures Whole() && NoOthers() && usingBundle == (BundleGroup in SplitSections(description.lines)[0])
      ensures var step := Remote(old(Views()), description, env, rtx, generate); Views() == step.ts && done == step.ok
    {
      hide MediaSections, SplitSections, OfferedFrom, AnsweredFrom, IsSection, AllSeen;
      var sections, session := MediaSections(description.lines), SplitSections(description.lines)[0];
      SectionsAre(description.lines);
      usingBundle := BundleGroup in session;
      if description.ty == Offer {
        done := ApplyOffer(sections, session, generate);
      } else {
        done := ApplyAnswer(sections, session, rtx, generate);
      }
    }

    /** Takes an offer or an answer from the other side: what it makes of the transceivers,
        and when it goes through. */
    method SetRemoteDescription(description: Description, rtx: set<nat>, generate: nat -> string) returns (r: Result)
      requires Valid()
      modifies this, transceivers
      ensures Valid() && NoOthers() && isClosed == old(isClosed)
      ensures unchanged(`localDescription, `localStreams, `senders, `sessionVersion)
      ensures r in {Done, Unsupported, InvalidState, TypeError}
      ensures r == Unsupported <==> description.ty == Pranswer
      ensures description.ty != Pranswer ==>
                (r == InvalidState <==> !Allowed(SetRemote, description.ty, old(signalingState)))
      ensures r == Done <==> description.ty != Pranswer && Allowed(SetRemote, description.ty, old(signalingState))
                             && Acceptable(old(Views()), description, env, rtx)
      ensures r in {Unsupported, InvalidState} ==> unchanged(this) && Views() == old(Views())
      ensures r != Done ==> unchanged(`signalingState, `remoteDescription)
      ensures r in {Done, TypeError} ==>
                var step := Remote(old(Views()), description, env, rtx, generate);
                Views() == step.ts && (r == Done <==> step.ok) && usingBundle == (BundleGroup in SplitSections(description.lines)[0])
      ensures r == Done ==>
                remoteDescription == Some(description) && InStep() && signalingState == AfterRemote(description.ty)
      ensures old(InStep()) && !(r == TypeError && description.ty == Offer) ==> InStep()
    {
      hide Orderly, MediaSections, SplitSections, Remote, Acceptable, Fitting, IsSection, AllSeen;
      if description.ty == Pranswer { return Unsupported; }
      if !Allowed(SetRemote, description.ty, signalingState) || isClosed { return InvalidState; }
      RemoteKeeps(Views(), description, env, rtx, generate, localStreams, senders);
      RemoteAcceptable(Views(), description, env, rtx, generate);
      var done := ApplyRemote(description, rtx, generate);
      if !done { return TypeError; }
      remoteDescription := Some(description);
      signalingState := AfterRemote(description.ty);
      return Done;
    }

    /** A local offer's sections give their transceivers capabilities. */
    method Munge(n: nat) returns (done: bool)
      requires Whole()
      modifies transceivers
      ensures Views() == LocalOffer(old(Views()), n).ts && done == (n <= |transceivers|)
    {
      hide AllSeen;
      var i := 0;
      while i < n
        invariant i <= n && i <= |transceivers|
        invariant Views() == LocalOffer(old(Views()), i).ts
      {
        if i >= |transceivers| { return false; }
        label Before:
        transceivers[i].localCapabilities := true;
        OneChanged@Before(i);
        i := i + 1;
      }
      return true;
    }

    /** Every transceiver has a gatherer to start. */
    method CanGather() returns (all: bool)
      ensures all == forall v :: v in Views() ==> v.gatherer
    {
      for i := 0 to |transceivers|
        invariant forall k :: 0 <= k < i ==> transceivers[k].iceGatherer
      {
        if !transceivers[i].iceGatherer {
          assert Views()[i] in Views();
          return false;
        }
      }
      return true;
    }

    /** What a local answer starts is there. */
    method CanStart(sections: seq<Lines>, session: Lines) returns (all: bool)
      requires |sections| <= |transceivers| && forall i :: 0 <= i < |sections| ==> IsSection(sections[i])
      ensures all == forall i :: 0 <= i < |sections| ==> Startable(Views()[i], sections[i], session, i, usingBundle)
    {
      hide IsSection, HasIce, Rejected;
      for i := 0 to |sections|
        invariant forall k :: 0 <= k < i ==> Startable(Views()[k], sections[k], session, k, usingBundle)
      {
        var s, t := sections[i], transceivers[i];
        if !Rejected(s) && !t.rejected {
          if !HasIce(s, session) { return false; }
          if (!usingBundle || i == 0) && !(t.iceGatherer && t.iceTransport && t.dtlsTransport) { return false; }
          if !t.localCapabilities || !t.remoteCapabilities { return false; }
        }
      }
      return true;
    }

    method StartOffer(n: nat) returns (done: bool)
      requires Whole()
      modifies transceivers
      ensures var step := LocalOffer(old(Views()), n); Views() == step.ts && done == step.ok
    {
      hide AllSeen;
      ghost var was := Views();
      done := Munge(n);
      if !done { return; }
      done := CanGather();
      assert forall k :: 0 <= k < |was| ==> Views()[k].gatherer == was[k].gatherer;
    }

    method StartAnswer(offer: Lines) returns (done: bool)
      requires |MediaSections(offer)| <= |transceivers|
      ensures done == Starts(Views(), offer, usingBundle)
    {
      hide AllSeen, IsSection, Startable, MediaSections, SplitSections;
      SectionsAre(offer);
      done := CanStart(MediaSections(offer), SplitSections(offer)[0]);
    }

    /** Takes an offer or an answer of this side: what it sets, and exactly when it throws. */
    method SetLocalDescription(description: Description) returns (r: Result)
      requires Valid()
      modifies this, transceivers
      ensures Valid() && (old(InStep()) ==> InStep()) && transceivers == old(transceivers) && isClosed == old(isClosed)
      ensures unchanged(`remoteDescription, `usingBundle, `localStreams, `senders, `sessionVersion)
      ensures r in {Done, Unsupported, InvalidState, TypeError}
      ensures r == Unsupported <==> description.ty == Pranswer
      ensures description.ty != Pranswer ==>
                (r == InvalidState <==> !Allowed(SetLocal, description.ty, old(signalingState)))
      ensures r in {Unsupported, InvalidState} || description.ty == Answer ==> Views() == old(Views())
      ensures r in {Done, TypeError} && description.ty == Offer ==>
                var step := LocalOffer(old(Views()), |MediaSections(description.lines)|);
                Views() == step.ts && (r == Done <==> step.ok)
      ensures r in {Done, TypeError} && description.ty == Answer ==>
                remoteDescription.Some? && (r == Done <==> Starts(Views(), remoteDescription.v.lines, usingBundle))
      ensures r != Done ==> unchanged(this)
      ensures r == Done ==>
                localDescription == Some(description) && signalingState == AfterLocal(description.ty)
    {
      hide Orderly, MediaSections, SplitSections, Starts, LocalOffer, Fitting, IsSection, AllSeen;
      if description.ty == Pranswer { return Unsupported; }
      if !Allowed(SetLocal, description.ty, signalingState) || isClosed { return InvalidState; }
      if description.ty == Offer {
        LocalOrderly(Views(), |MediaSections(description.lines)|, localStreams, senders);
        var done := StartOffer(|MediaSections(description.lines)|);
        if !done { return TypeError; }
      } else {
        var done := StartAnswer(remoteDescription.v.lines);
        if !done { return TypeError; }
      }
      localDescription := Some(description);
      signalingState := AfterLocal(description.ty);
      return Done;
    }

    // Tracks.

    method FindFree(kind: string) returns (i: nat)
      ensures i == LastFree(Views(), kind)
    {
      i := |transceivers|;
      for k := 0 to |transceivers|
        invariant i == LastFreeBelow(Views(), kind, k)
      {
        if transceivers[k].track == 0 && transceivers[k].kind == kind { i := k; }
      }
    }

    method FindSender(sender: int) returns (i: nat)
      ensures i == SenderAt(Views(), sender, 0)
    {
      i := 0;
      while i < |transceivers|
        invariant i <= |transceivers| && SenderAt(Views(), sender, i) == SenderAt(Views(), sender, 0)
      {
        if transceivers[i].rtpSender == sender { return; }
        i := i + 1;
      }
    }

    method Attach(track: int, kind: string, stream: int)
      requires Whole()
      modifies `transceivers, `senders, transceivers
      ensures Whole() && NoOthers() && senders == old(senders) + 1
      ensures Views() == WithTrack(old(Views()), track, kind, stream, senders, usingBundle)
    {
      hide AllSeen, LastFree, New;
      var i := FindFree(kind);
      ghost var was := Views();
      if i == |transceivers| { var t := CreateTransceiver(kind, false); }
      label Found:
      ghost var v := transceivers[i].Seen();
      assert v == if i < |was| then was[i] else New(kind, was, usingBundle);
      senders := senders + 1;
      transceivers[i].Carry(track, stream, senders);
      OneChanged@Found(i);
      ghost var now := v.(track := track, stream := stream, sender := senders);
      if i == |was| { assert (was + [v])[i := now] == was + [now]; }
    }

    /** Attaches a track to the last free transceiver of its kind, or to a new one. */
    method AddTrack(track: int, kind: string, stream: int) returns (r: Result)
      requires Valid() && track != 0
      modifies this, transceivers
      ensures Valid() && NoOthers() && (old(InStep()) ==> InStep())
      ensures unchanged(`signalingState, `remoteDescription, `localDescription, `isClosed, `usingBundle, `sessionVersion)
      ensures r in {Done, InvalidState, InvalidAccess}
      ensures r == InvalidState <==> isClosed
      ensures r == InvalidAccess <==> !isClosed && exists v :: v in old(Views()) && v.track == track
      ensures r != Done ==> unchanged(this) && Views() == old(Views())
      ensures r == Done ==>
                && senders == old(senders) + 1
                && localStreams == old(localStreams) + (if stream in old(localStreams) then [] else [stream])
                && Views() == WithTrack(old(Views()), track, kind, stream, senders, usingBundle)
    {
      hide AllSeen, WithTrack, Orderly, Valid, InStep, Keeps, Whole, RTCPeerConnection.Views;
      Opened();
      if isClosed { return InvalidState; }
      var has := HasTrack(track);
      if has { return InvalidAccess; }
      AddedOrderly(Views(), localStreams, senders, track, kind, stream, usingBundle);
      AddedKeeps(Views(), track, kind, stream, senders + 1, usingBundle);
      Attach(track, kind, stream);
      if stream !in localStreams { localStreams := localStreams + [stream]; }
      StillValid();
      return Done;
    }

    /** Provisional answers are not supported. */
    lemma NoPranswer()
      requires Valid()
      ensures signalingState != HaveLocalPranswer && signalingState != HaveRemotePranswer
    {
      hide Orderly, AllSeen;
    }

    lemma WhenClosed()
      requires Valid() && isClosed
      ensures signalingState == Closed
    {}

    lemma Opened()
      requires Valid()
      ensures Whole() && Orderly(Views(), localStreams, senders)
    {}

    /** A call that keeps what the transceivers are keeps them in step. */
    twostate lemma StillValid()
      requires old(Valid()) && unchanged(`signalingState, `remoteDescription, `isClosed)
      requires Whole() && Orderly(Views(), localStreams, senders) && Keeps(old(Views()), Views())
      ensures Valid() && (old(InStep()) ==> InStep())
    {
      hide Orderly, Fitting, MediaSections, AllSeen;
      KeepsAligned(old(Views()), Views(), Offered());
      assert Keeps(old(Views()), Views());
      assert Offered() == old(Offered());
    }

    method HasTrack(track: int) returns (has: bool)
      ensures has == exists v :: v in Views() && v.track == track
    {
      for i := 0 to |transceivers|
        invariant forall k :: 0 <= k < i ==> transceivers[k].track != track
      {
        if transceivers[i].track == track {
          assert Views()[i] in Views();
          return true;
        }
      }
      return false;
    }

    method DropStream(stream: int)
      modifies `localStreams
      ensures localStreams == StreamsLeft(old(localStreams), Views(), stream)
    {
      for i := 0 to |transceivers|
        invariant localStreams == old(localStreams) && forall k :: 0 <= k < i ==> transceivers[k].stream != stream
      {
        if transceivers[i].stream == stream {
          assert Views()[i] in Views();
          return;
        }
      }
      localStreams := Without(localStreams, stream);
    }

    /** Takes the sender's track away; its transceiver stays, and its stream goes with the
        last track of it. */
    method RemoveTrack(sender: int) returns (r: Result)
      requires Valid() && sender != 0
      modifies this, transceivers
      ensures Valid() && (old(InStep()) ==> InStep()) && transceivers == old(transceivers)
      ensures unchanged(`signalingState, `remoteDescription, `localDescription, `isClosed, `usingBundle, `senders, `sessionVersion)
      ensures r in {Done, InvalidState, InvalidAccess}
      ensures r == InvalidState <==> isClosed
      ensures r == InvalidAccess <==> !isClosed && SenderAt(old(Views()), sender, 0) == |transceivers|
      ensures r != Done ==> unchanged(this) && Views() == old(Views())
      ensures r == Done ==>
                var was, i := old(Views()), SenderAt(old(Views()), sender, 0);
                && Views() == WithoutSender(was, sender)
                && localStreams == StreamsLeft(old(localStreams), Views(), was[i].stream)
    {
      hide AllSeen, Orderly, Valid, InStep, Keeps, Whole, SenderAt, WithoutSender, StreamsLeft;
      Opened();
      if isClosed { return InvalidState; }
      var i := FindSender(sender);
      if i == |transceivers| { return InvalidAccess; }
      RemovedOrderly(Views(), localStreams, senders, sender);
      RemovedKeeps(Views(), sender);
      var stream := transceivers[i].stream;
      Detach(i, sender);
      DropStream(stream);
      StillValid();
      return Done;
    }

    method Detach(i: nat, ghost sender: int)
      requires Whole() && i == SenderAt(Views(), sender, 0) && i < |transceivers|
      modifies transceivers
      ensures Views() == WithoutSender(old(Views()), sender)
    {
      hide AllSeen, SenderAt;
      label Found:
      transceivers[i].Carry(0, 0, 0);
      OneChanged@Found(i);
    }

    method Close()
      requires Valid()
      modifies `isClosed, `signalingState
      ensures Valid() && InStep() && isClosed && signalingState == Closed
    {
      isClosed := true;
      signalingState := Closed;
    }

    // Offers.

    method CountKind(kind: string) returns (n: nat)
      ensures n == Occurs(kind, Views())
    {
      hide AllSeen, Occurs;
      n := 0;
      NoOccurs(kind);
      assert Views()[..0] == [];
      for i := 0 to |transceivers|
        invariant n == Occurs(kind, Views()[..i])
      {
        OccursLast(kind, Views(), i);
        if transceivers[i].kind == kind { n := n + 1; }
      }
      assert Views()[..|transceivers|] == Views();
    }

    /** Counts the transceivers of each kind off what is asked for, and says who is no
        longer to receive. */
    method CountDown(audio: int, video: int) returns (a: int, v: int)
      requires Whole()
      modifies transceivers
      ensures Views() == CountedDown(old(Views()), audio, video)
      ensures a == audio - Occurs("audio", old(Views())) && v == video - Occurs("video", old(Views()))
    {
      hide AllSeen, Occurs, RTCPeerConnection.Views, CountedDown;
      ghost var was := Views();
      a, v := audio, video;
      NoOccurs("audio");
      NoOccurs("video");
      assert was[..0] == [];
      var i := 0;
      while i < |transceivers|
        invariant i <= |transceivers|
        invariant a == audio - Occurs("audio", was[..i]) && v == video - Occurs("video", was[..i])
        invariant forall k :: 0 <= k < |was| ==> Views()[k] == if k < i then CountedDown(was, audio, video)[k] else was[k]
      {
        OccursLast("audio", was, i);
        OccursLast("video", was, i);
        CountedAt(was, audio, video, i);
        var kind := transceivers[i].kind;
        a, v := if kind == "audio" then a - 1 else a, if kind == "video" then v - 1 else v;
        WantAt(i, !(kind == "audio" && a < 0) && !(kind == "video" && v < 0));
        i := i + 1;
      }
      assert was[..i] == was;
    }

    method WantAt(i: nat, still: bool)
      requires Whole() && i < |transceivers|
      modifies transceivers[i]
      ensures Views() == old(Views())[i := old(Views()[i]).(wantReceive := old(Views()[i].wantReceive) && still)]
    {
      hide AllSeen;
      label Before:
      transceivers[i].Want(still);
      OneChanged@Before(i);
    }

    method AddReceiver(kind: string)
      requires Whole()
      modifies `transceivers
      ensures Whole() && NoOthers() && Views() == old(Views()) + [New(kind, old(Views()), usingBundle)]
    {
      hide AllSeen, New;
      var t := CreateTransceiver(kind, false);
    }

    /** Transceivers that are only to receive, for what is still asked for. */
    method AddReceivers(audio: int, video: int)
      requires Whole()
      modifies `transceivers
      ensures Whole() && NoOthers() && Views() == More(old(Views()), audio, video, usingBundle)
    {
      hide AllSeen, New;
      var a, v := audio, video;
      while a > 0 || v > 0
        invariant Whole() && NoOthers()
        invariant More(Views(), a, v, usingBundle) == More(old(Views()), audio, video, usingBundle)
        decreases (if a > 0 then a else 0) + if v > 0 then v else 0
      {
        if a > 0 { AddReceiver("audio"); }
        if v > 0 { AddReceiver("video"); }
        a, v := if a > 0 then a - 1 else a, if v > 0 then v - 1 else v;
      }
    }

    method NameAndGather(i: nat, generated: string)
      requires Whole() && i < |transceivers|
      modifies transceivers[i]
      ensures var was := old(Views());
              Views() == Gathered(was[i := was[i].(mid := if was[i].mid != "" then was[i].mid else generated)], i, usingBundle)
    {
      hide AllSeen, Gathered;
      label Before:
      transceivers[i].Name(generated);
      OneChanged@Before(i);
      Gather(i);
    }

    /** What an offer needs is put on a transceiver. */
    method Equip(i: nat, generated: string) returns (done: bool)
      requires Whole() && i < |transceivers|
      modifies transceivers[i]
      ensures var step := Equipped(old(Views()), i, usingBundle, env, generated); Views() == step.ts && done == step.ok
    {
      hide AllSeen, Gathered, WithAll;
      NameAndGather(i, generated);
      done := Finish(i);
    }

    method Finish(i: nat) returns (done: bool)
      requires Whole() && i < |transceivers|
      modifies transceivers[i]
      ensures var was := old(Views());
              done == (was[i].kind in env.kinds) && Views() == if done then was[i := WithAll(was[i])] else was
    {
      hide AllSeen, WithAll;
      done := transceivers[i].kind in env.kinds;
      label Known:
      if done { transceivers[i].Complete(); }
      OneChanged@Known(i);
    }

    method EquipAll(generate: nat -> string) returns (done: bool)
      requires Whole()
      modifies transceivers
      ensures var step := EquippedFrom(old(Views()), 0, usingBundle, env, generate); Views() == step.ts && done == step.ok
    {
      hide AllSeen, Equipped;
      var i := 0;
      while i < |transceivers|
        invariant i <= |transceivers|
        invariant EquippedFrom(Views(), i, usingBundle, env, generate) == EquippedFrom(old(Views()), 0, usingBundle, env, generate)
      {
        assert transceivers[i] in transceivers;
        done := Equip(i, generate(i));
        if !done { return; }
        i := i + 1;
      }
      return true;
    }

    /** The transceivers that are asked for. */
    method Ask(audio: Receive, video: Receive)
      requires Whole()
      modifies `transceivers, transceivers
      ensures Whole() && NoOthers() && Views() == Asked(old(Views()), audio, video, usingBundle)
    {
      hide AllSeen, Occurs, More, CountedDown;
      var a := CountKind("audio");
      var v := CountKind("video");
      a, v := CountDown(Wanted(audio, a), Wanted(video, v));
      AddReceivers(a, v);
    }

    /** The transceivers that an offer describes. */
    method MakeTransceivers(audio: Receive, video: Receive, generate: nat -> string) returns (done: bool)
      requires Whole()
      modifies `transceivers, transceivers
      ensures Whole() && NoOthers()
      ensures var step := Offering(old(Views()), audio, video, usingBundle, env, generate); Views() == step.ts && done == step.ok
    {
      hide AllSeen, Asked, EquippedFrom;
      Ask(audio, video);
      done := EquipAll(generate);
    }

    /** The sections of all transceivers; each has to have its gatherer and its transport. */
    method WriteOffer(header: Lines, codecs: set<nat>) returns (done: bool, lines: Lines)
      ensures done == forall v :: v in Views() ==> HasTransports(v)
      ensures done ==> lines == header + Concat(OfferSections(Views(), codecs))
    {
      hide AllSeen, Concat, OfferSection;
      NoConcat();
      lines := header;
      ghost var sections: seq<Lines> := [];
      for i := 0 to |transceivers|
        invariant |sections| == i && lines == header + Concat(sections)
        invariant forall k :: 0 <= k < i ==> HasTransports(Views()[k]) && sections[k] == OfferSection(Views()[k], k in codecs)
      {
        var t := transceivers[i];
        if !t.iceGatherer || !t.dtlsTransport {
          assert Views()[i] in Views();
          return false, lines;
        }
        var s := OfferSection(t.Seen(), i in codecs);
        ConcatLast(sections, s);
        lines := lines + s;
        sections := sections + [s];
      }
      assert sections == OfferSections(Views(), codecs);
      return true, lines;
    }

    /** Makes the transceivers that are asked for and describes all in order. */
    method CreateOffer(audio: Receive, video: Receive, codecs: set<nat>, generate: nat -> string) returns (r: Result, lines: Lines)
      requires Valid()
      modifies `transceivers, transceivers, `sessionVersion
      ensures Valid() && NoOthers() && (old(InStep()) ==> InStep())
      ensures r in {Done, InvalidState, TypeError} && (r == InvalidState <==> isClosed)
      ensures r == InvalidState ==> unchanged(this) && Views() == old(Views())
      ensures r != InvalidState ==>
                var step := Offering(old(Views()), audio, video, usingBundle, env, generate);
                Views() == step.ts && (r == Done <==> OfferDone(step)) && sessionVersion == old(sessionVersion) + 1
      ensures r == Done ==>
                lines == OfferHeader(old(sessionVersion)) + Concat(OfferSections(Views(), codecs))
    {
      hide AllSeen, Orderly, Valid, InStep, Keeps, Whole, Offering, HasTransports, Header, Groups, Concat, OfferSections;
      Opened();
      if isClosed { return InvalidState, []; }
      var header := OfferHeader(sessionVersion);
      OfferOrderly(Views(), audio, video, usingBundle, env, generate, localStreams, senders);
      sessionVersion := sessionVersion + 1;
      var done := MakeTransceivers(audio, video, generate);
      StillValid();
      if !done { return TypeError, []; }
      done, lines := WriteOffer(header, codecs);
      r := if done then Done else TypeError;
    }

    function OfferHeader(version: nat): (r: Lines)
      ensures r != [] && NoMedia(r) && (BundleGroup in r <==> policy != MaxCompat)
    {
      Header(version) + Groups(policy != MaxCompat)
    }

    // Answers.

    /** The sections of the first n transceivers; what one of them lacks throws. */
    method WriteAnswer(header: Lines, common: set<nat>, n: nat) returns (done: bool, lines: Lines)
      requires n <= |transceivers|
      ensures done == forall k :: 0 <= k < n ==> Writable(Views()[k])
      ensures done ==> lines == header + Concat(AnswerSections(Views(), n, common))
    {
      hide AllSeen, Concat, AnswerSection;
      NoConcat();
      lines := header;
      ghost var sections: seq<Lines> := [];
      for i := 0 to |transceivers|
        invariant |sections| == (if i < n then i else n) && lines == header + Concat(sections)
        invariant forall k :: 0 <= k < |sections| ==> Writable(Views()[k]) && sections[k] == AnswerSection(Views()[k], k in common)
      {
        if i + 1 <= n {
          var t := transceivers[i];
          if !t.rejected && !(t.localCapabilities && t.remoteCapabilities && t.sendEncodingParameters && t.iceGatherer && t.dtlsTransport) {
            assert !Writable(Views()[i]);
            return false, lines;
          }
          var s := AnswerSection(t.Seen(), i in common);
          ConcatLast(sections, s);
          lines := lines + s;
          sections := sections + [s];
        }
      }
      assert sections == AnswerSections(Views(), n, common);
      return true, lines;
    }

    /** Answers the open offer, section by section. */
    method CreateAnswer(common: set<nat>) returns (r: Result, lines: Lines)
      requires Valid()
      modifies `sessionVersion
      ensures Valid() && (old(InStep()) ==> InStep())
      ensures r in {Done, InvalidState, TypeError} && (r == InvalidState <==> signalingState != HaveRemoteOffer)
      ensures r == InvalidState ==> unchanged(this)
      ensures r != InvalidState ==>
                |Offered()| <= |transceivers| && (r == Done <==> forall k :: 0 <= k < |Offered()| ==> Writable(Views()[k]))
      ensures r != InvalidState ==> sessionVersion == old(sessionVersion) + 1
      ensures r == Done ==>
                lines == AnswerHeader(old(sessionVersion), usingBundle) + Concat(AnswerSections(Views(), |Offered()|, common))
    {
      hide AllSeen, Orderly, Fitting, Writable, Header, Groups, Concat, AnswerSections, MediaSections, Whole;
      if isClosed || signalingState != HaveRemoteOffer { return InvalidState, []; }
      var header := AnswerHeader(sessionVersion, usingBundle);
      sessionVersion := sessionVersion + 1;
      var done;
      done, lines := WriteAnswer(header, common, |MediaSections(remoteDescription.v.lines)|);
      r := if done then Done else TypeError;
    }
  }

  function AnswerHeader(version: nat, bundle: bool): (r: Lines)
    ensures r != [] && NoMedia(r) && (BundleGroup in r <==> bundle)
  {
    Header(version) + Groups(bundle)
  }

  lemma CountedAt(ts: seq<View>, audio: int, video: int, i: nat)
    requires i < |ts|
    ensures CountedDown(ts, audio, video)[i] == ts[i].(wantReceive := ts[i].wantReceive && StillWanted(ts, i, audio, video))
  {}

  lemma NoOccurs(kind: string)
    ensures Occurs(kind, []) == 0
  {}

  lemma OfferOrderly(ts: seq<View>, audio: Receive, video: Receive, bundle: bool, env: Env, generate: nat -> string,
                     streams: seq<int>, senders: nat)
    requires Orderly(ts, streams, senders)
    ensures var r := Offering(ts, audio, video, bundle, env, generate).ts; Keeps(ts, r) && Orderly(r, streams, senders)
  {
    hide Orderly, Keeps, Offering;
    OfferingAre(ts, audio, video, bundle, env, generate);
    NoTracksOrderly(ts, Offering(ts, audio, video, bundle, env, generate).ts, streams, senders);
  }

  lemma LocalOrderly(ts: seq<View>, n: nat, streams: seq<int>, senders: nat)
    requires Orderly(ts, streams, senders)
    ensures Orderly(LocalOffer(ts, n).ts, streams, senders)
  {
    NoTracksOrderly(ts, LocalOffer(ts, n).ts, streams, senders);
  }

  /** A remote description keeps the transceivers' number and their tracks, and a completed
      offer is in step with them. */
  lemma RemoteKeeps(ts: seq<View>, d: Description, env: Env, rtx: set<nat>, generate: nat -> string, streams: seq<int>, senders: nat)
    requires Orderly(ts, streams, senders)
    ensures var r := Remote(ts, d, env, rtx, generate);
            && |ts| <= |r.ts| && Orderly(r.ts, streams, senders)
            && (r.ok && d.ty == Offer ==> Fitting(r.ts, MediaSections(d.lines)) && Aligned(r.ts, MediaSections(d.lines)))
  {
    hide OfferedFrom, AnsweredFrom, Orderly, Fitting, Aligned, MediaSections, SplitSections;
    var sections, session := MediaSections(d.lines), SplitSections(d.lines)[0];
    SectionsAre(d.lines);
    if d.ty == Offer {
      OfferedAllNoTracks(ts, sections, session, 0, BundleGroup in session, env, generate);
      if Remote(ts, d, env, rtx, generate).ok { CompletedOffer(ts, sections, session, BundleGroup in session, env, generate); }
    } else {
      AnsweredAllNoTracks(ts, sections, session, 0, BundleGroup in session, rtx, generate);
    }
    NoTracksOrderly(ts, Remote(ts, d, env, rtx, generate).ts, streams, senders);
  }
}
