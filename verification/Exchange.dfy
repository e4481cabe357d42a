/** The first offer on a new connection, and a whole exchange of offer and answer between two. */
module Exchange {
  import opened Descriptions
  import opened Transceivers
  import opened Tracks
  import opened Offers
  import opened PeerConnection
  import opened Negotiation

  // A new connection and its first offer.

  /** A live section of a BUNDLE whose first section is refused has no transports. */
  predicate Stranded(sections: seq<Lines>, k: nat, bundle: bool)
    requires k < |sections| && IsSection(sections[0]) && IsSection(sections[k])
  {
    bundle && k > 0 && Refused(sections[0]) && !Refused(sections[k])
  }

  /** The transceiver of a section of a first offer. */
  predicate Taken(v: View, sections: seq<Lines>, k: nat, bundle: bool)
    requires k < |sections| && IsSection(sections[0]) && IsSection(sections[k])
  {
    if Refused(sections[k]) then v.rejected && !v.gatherer && !v.ice && !v.dtls
    else
      && !v.rejected && v.local && v.remote && v.encodings
      && v.gatherer == v.ice == v.dtls == !Stranded(sections, k, bundle)
  }

  lemma NewSection(ts: seq<View>, sections: seq<Lines>, session: Lines, bundle: bool, env: Env, generated: string)
    requires |ts| < |sections| && IsSection(sections[0]) && IsSection(sections[|ts|])
    requires |ts| > 0 ==> Taken(ts[0], sections, 0, bundle)
    ensures var i := |ts|;
            var r := Offered(ts, sections[i], session, i, bundle, env, generated);
            r.ok ==> |r.ts| == i + 1 && r.ts[..i] == ts && Taken(r.ts[i], sections, i, bundle)
  {
    hide MsidReads, Readable, HasCandidates, Refused, Sends, MidOr;
  }

  lemma {:induction false} NewOfferFrom(ts: seq<View>, sections: seq<Lines>, session: Lines, bundle: bool, env: Env,
                                        generate: nat -> string)
    requires |ts| <= |sections| && forall k :: 0 <= k < |sections| ==> IsSection(sections[k])
    requires forall k :: 0 <= k < |ts| ==> Taken(ts[k], sections, k, bundle)
    ensures var r := OfferedFrom(ts, sections, session, |ts|, bundle, env, generate);
            r.ok ==> |r.ts| == |sections| && forall k :: 0 <= k < |sections| ==> Taken(r.ts[k], sections, k, bundle)
    decreases |sections| - |ts|
  {
    hide Offered, Taken;
    if |ts| < |sections| {
      var i := |ts|;
      var r := Offered(ts, sections[i], session, i, bundle, env, generate(i));
      OfferedNext(ts, sections, session, i, bundle, env, generate);
      NewSection(ts, sections, session, bundle, env, generate(i));
      if r.ok {
        assert forall k :: 0 <= k < i ==> r.ts[k] == r.ts[..i][k] == ts[k];
        NewOfferFrom(r.ts, sections, session, bundle, env, generate);
      }
    }
  }

  /** Which first offers go through, and that exactly the live sections behind a
      refused first one of a BUNDLE cannot be answered. */
  lemma NewOffer(offer: Lines, env: Env, generate: nat -> string)
    ensures var r := Remote([], Description(Offer, offer), env, {}, generate);
            var sections, session := MediaSections(offer), SplitSections(offer)[0];
            var bundle := BundleGroup in session;
            && (forall k :: 0 <= k < |sections| ==> IsSection(sections[k]))
            && (r.ok <==> forall k :: 0 <= k < |sections| ==> Passes([], sections, k, session, bundle, env))
            && (r.ok ==> |r.ts| == |sections| && forall k :: 0 <= k < |sections| ==>
                  Taken(r.ts[k], sections, k, bundle) && (Writable(r.ts[k]) <==> !Stranded(sections, k, bundle)))
  {
    hide MediaSections, SplitSections, OfferedFrom, Passes, Refused;
    SectionsAre(offer);
    var session := SplitSections(offer)[0];
    OfferPasses([], MediaSections(offer), session, BundleGroup in session, env, generate);
    NewOfferFrom([], MediaSections(offer), session, BundleGroup in session, env, generate);
  }

  /** The first offer that a new connection answers: it goes through exactly when each section
      does, and is answered exactly when none is stranded. */
  method AnswerFirstOffer(pc: RTCPeerConnection, offer: Lines, common: set<nat>, generate: nat -> string)
    returns (taken: Result, answered: Result, answer: Lines)
    requires pc.Valid() && pc.signalingState == Stable && pc.transceivers == []
    modifies pc
    ensures pc.Valid()
    ensures taken in {Done, TypeError} && answered in {Done, InvalidState, TypeError}
    ensures var sections, session := MediaSections(offer), SplitSections(offer)[0];
            var bundle := BundleGroup in session;
            && (forall k :: 0 <= k < |sections| ==> IsSection(sections[k]))
            && (taken == Done <==> forall k :: 0 <= k < |sections| ==> Passes([], sections, k, session, bundle, pc.env))
            && (taken == Done ==>
                  (answered == Done <==> forall k :: 0 <= k < |sections| ==> !Stranded(sections, k, bundle)))
    ensures answered == InvalidState <==> taken != Done
    ensures answered == Done ==> (|MediaSections(answer)| == |MediaSections(offer)| <==> RefusedKnown(MediaSections(offer)))
    ensures answered == Done && RefusedKnown(MediaSections(offer)) ==>
              Answers(MediaSections(offer), SplitSections(offer)[0], MediaSections(answer), [], common)
  {
    hide RTCPeerConnection.Views, AllSeen, MediaSections, SplitSections, Remote, Acceptable, Passes, Taken, Writable, Stranded, Orderly, Answers,
      RefusedKnown, AnswerSections, Concat;
    NewOffer(offer, pc.env, generate);
    NoneSeen(pc);
    RemoteAcceptable([], Description(Offer, offer), pc.env, {}, generate);
    taken := pc.SetRemoteDescription(Description(Offer, offer), {}, generate);
    ghost var version := pc.sessionVersion;
    answered, answer := pc.CreateAnswer(common);
    if answered == Done { AnswersOffer([], offer, pc.env, generate, AnswerHeader(version, pc.usingBundle), common); }
  }

  lemma NoneSeen(pc: RTCPeerConnection)
    requires pc.transceivers == []
    ensures pc.Views() == []
  {}

  // Both sides.

  /** A transceiver that can be offered again and again. */
  predicate Ready(v: View) {
    !v.rejected && v.ice && v.dtls && v.gatherer && v.local && v.encodings
  }

  lemma {:induction false} AllValued(s: Lines)
    requires forall l :: l in s && l.SsrcMsid? ==> l.valued
    ensures FirstValued(s)
  {
    if s != [] { AllValued(s[1..]); }
  }

  /** What this shim writes it can also read. */
  lemma WrittenReads(v: View, codecs: bool, tail: Lines, session: Lines)
    requires forall l :: l in tail ==> l.Text?
    ensures var s := Written(v, codecs) + tail;
            && IsSection(s) && MsidReads(s) && Readable(s, session) && !HasCandidates(s)
            && (Refused(s) <==> !codecs) && (Rejected(s) <==> !codecs) && s[0].kind == v.kind
  {
    var s := Written(v, codecs) + tail;
    hide Mid, HasIce;
    var n := |Written(v, codecs)|;
    forall i | n <= i < |s| ensures s[i].Text? { assert s[i] == tail[i - n]; }
    AllValued(s);
    assert forall l :: l in s ==> !l.Candidate? && l != BundleOnly && (l.SsrcMsid? ==> l.valued);
    HasIceAt(v, codecs, tail, session);
  }

  lemma HasIceAt(v: View, codecs: bool, tail: Lines, session: Lines)
    ensures HasIce(Written(v, codecs) + tail, session)
  {
    hide Mid;
    var s := Written(v, codecs) + tail + session;
    assert s[1] == IceUfrag && s[2] == IcePwd && s[1] in s && s[2] in s;
  }

  // The offer of a side that is ready.

  /** The transceivers of a connection that has had no description refused. */
  predicate Fresh(v: View, kinds: set<string>) {
    !v.rejected && v.ice && v.dtls && v.kind in kinds
  }

  lemma NewFresh(kind: string, ts: seq<View>, bundle: bool, kinds: set<string>)
    requires kind in kinds && forall v :: v in ts ==> Fresh(v, kinds)
    ensures forall v :: v in ts + [New(kind, ts, bundle)] ==> Fresh(v, kinds)
  {
    if bundle && |ts| > 0 { assert ts[0] in ts; }
  }

  lemma {:induction false} MoreFresh(ts: seq<View>, audio: int, video: int, bundle: bool, kinds: set<string>)
    requires (audio > 0 ==> "audio" in kinds) && (video > 0 ==> "video" in kinds)
    requires forall v :: v in ts ==> Fresh(v, kinds)
    ensures forall v :: v in More(ts, audio, video, bundle) ==> Fresh(v, kinds)
    decreases (if audio > 0 then audio else 0) + if video > 0 then video else 0
  {
    if audio > 0 || video > 0 {
      var a := if audio > 0 then ts + [New("audio", ts, bundle)] else ts;
      var v := if video > 0 then a + [New("video", a, bundle)] else a;
      if audio > 0 { NewFresh("audio", ts, bundle, kinds); }
      if video > 0 { NewFresh("video", a, bundle, kinds); }
      MoreFresh(v, if audio > 0 then audio - 1 else audio, if video > 0 then video - 1 else video, bundle, kinds);
    }
  }

  /** The kinds asked for are known. */
  predicate AsksFor(ts: seq<View>, audio: Receive, video: Receive, kinds: set<string>) {
    && (Wanted(audio, Occurs("audio", ts)) > Occurs("audio", ts) ==> "audio" in kinds)
    && (Wanted(video, Occurs("video", ts)) > Occurs("video", ts) ==> "video" in kinds)
  }

  lemma AskedFresh(ts: seq<View>, audio: Receive, video: Receive, bundle: bool, kinds: set<string>)
    requires AsksFor(ts, audio, video, kinds) && forall v :: v in ts ==> Fresh(v, kinds)
    ensures forall v :: v in Asked(ts, audio, video, bundle) ==> Fresh(v, kinds)
  {
    hide Occurs, More, StillWanted;
    var na, nv := Occurs("audio", ts), Occurs("video", ts);
    var c := CountedDown(ts, Wanted(audio, na), Wanted(video, nv));
    forall k | 0 <= k < |c| ensures Fresh(c[k], kinds) { assert Fresh(ts[k], kinds); }
    MoreFresh(c, Wanted(audio, na) - na, Wanted(video, nv) - nv, bundle, kinds);
  }

  lemma OfferReady(ts: seq<View>, audio: Receive, video: Receive, bundle: bool, env: Env, generate: nat -> string, kinds: set<string>)
    requires AsksFor(ts, audio, video, kinds) && (forall v :: v in ts ==> Fresh(v, kinds)) && kinds <= env.kinds
    ensures var r := Offering(ts, audio, video, bundle, env, generate);
            OfferDone(r) && forall k :: 0 <= k < |r.ts| ==> Ready(r.ts[k]) && r.ts[k].kind in kinds
  {
    hide Asked, EquippedFrom;
    AskedFresh(ts, audio, video, bundle, kinds);
    var m := Asked(ts, audio, video, bundle);
    var r := EquippedFrom(m, 0, bundle, env, generate);
    EquippedAre(m, 0, bundle, env, generate);
    forall k | 0 <= k < |m| ensures m[k].kind in env.kinds && Fresh(m[k], kinds) { assert m[k] in m; }
    forall k | 0 <= k < |m| ensures Ready(r.ts[k]) && r.ts[k].kind in kinds {
      assert Equips(m[k], r.ts[k]) && EquippedView(m[k], r.ts[k], generate(k));
    }
  }

  /** Munging a complete offer changes nothing. */
  lemma OwnOffer(ts: seq<View>)
    requires forall k :: 0 <= k < |ts| ==> Ready(ts[k])
    ensures LocalOffer(ts, |ts|).ok && LocalOffer(ts, |ts|).ts == ts
  {}

  // The other side.

  /** A transceiver made for an offered section. */
  predicate Mirrors(v: View, offered: View) {
    && !v.rejected && v.kind == offered.kind && (offered.mid != "" ==> v.mid == offered.mid)
    && v.local && v.remote && v.encodings && v.gatherer && v.ice && v.dtls
    && (v.receiver <==> offered.sender != 0) && v.sender == 0
  }

  lemma OfferSends(ts: seq<View>, codecs: set<nat>, k: nat, session: Lines)
    requires k < |ts|
    ensures Sends(OfferSections(ts, codecs)[k], session) <==> ts[k].sender != 0
  {
    hide Says, OfferSection, Sends;
    OfferSays(ts, codecs, k);
    SectionSends(OfferSections(ts, codecs)[k], session);
  }

  /** A section that says its direction. */
  lemma SectionSends(s: Lines, session: Lines)
    requires Says(s, "sendrecv") || Says(s, "sendonly") || Says(s, "recvonly") || Says(s, "inactive")
    ensures Sends(s, session) <==> Says(s, "sendrecv") || Says(s, "sendonly")
  {
    hide Says, Sends;
    if Says(s, "sendrecv") { DirectionSaid(s, session, "sendrecv"); }
    if Says(s, "sendonly") { DirectionSaid(s, session, "sendonly"); }
    if Says(s, "recvonly") { DirectionSaid(s, session, "recvonly"); }
    if Says(s, "inactive") { DirectionSaid(s, session, "inactive"); }
  }

  /** A new connection takes an offer whose sections all have codecs. */
  lemma TakesOffer(header: Lines, ts: seq<View>, codecs: set<nat>, env: Env, generate: nat -> string)
    requires header != [] && NoMedia(header) && forall k :: 0 <= k < |ts| ==> k in codecs && ts[k].kind in env.kinds
    ensures var offer := header + Concat(OfferSections(ts, codecs));
            var r := Remote([], Description(Offer, offer), env, {}, generate);
            && MediaSections(offer) == OfferSections(ts, codecs) && SplitSections(offer)[0] == header
            && r.ok && |r.ts| == |ts| && forall k :: 0 <= k < |ts| ==> Mirrors(r.ts[k], ts[k]) && Writable(r.ts[k])
  {
    hide MediaSections, SplitSections, OfferedFrom, MsidReads, Readable, HasCandidates, Concat, Refused, Aligned, Mid, OfferSection, Sends,
      Says;
    var sections := OfferSections(ts, codecs);
    var offer := header + Concat(sections);
    OfferIs(header, ts, codecs);
    NewOffer(offer, env, generate);
    forall k | 0 <= k < |ts|
      ensures IsSection(sections[k]) && MsidReads(sections[k]) && Readable(sections[k], header) && !HasCandidates(sections[k])
              && !Refused(sections[k]) && sections[k][0].kind == ts[k].kind
    {
      OfferSectionReads(ts[k], k in codecs, header);
    }
    assert forall k :: 0 <= k < |ts| ==> Passes([], sections, k, header, BundleGroup in header, env);
    CompletedOffer([], sections, header, BundleGroup in header, env, generate);
    OfferDirects([], sections, header, 0, BundleGroup in header, env, generate);
    var r := Remote([], Description(Offer, offer), env, {}, generate);
    forall k | 0 <= k < |ts| ensures Mirrors(r.ts[k], ts[k]) {
      assert Taken(r.ts[k], sections, k, BundleGroup in header) && Fits(r.ts[k], sections[k]);
      OfferSectionReads(ts[k], k in codecs, header);
      OfferSends(ts, codecs, k, header);
    }
  }

  lemma OfferSectionReads(v: View, codecs: bool, session: Lines)
    ensures var s := OfferSection(v, codecs);
            && IsSection(s) && MsidReads(s) && Readable(s, session) && !HasCandidates(s) && Mid(s) == v.mid
            && (Refused(s) <==> !codecs) && (Rejected(s) <==> !codecs) && s[0].kind == v.kind
  {
    hide MsidReads, Readable, HasCandidates, Refused, Rejected, Mid;
    WrittenReads(v, codecs, [Text("a=rtcp-rsize")], session);
  }

  lemma AnswerSectionReads(v: View, common: bool, session: Lines)
    requires !v.rejected
    ensures var s := AnswerSection(v, common);
            && IsSection(s) && MsidReads(s) && Readable(s, session) && !HasCandidates(s) && Mid(s) == v.mid
            && (Refused(s) <==> !common) && s[0].kind == v.kind
  {
    hide MsidReads, Readable, HasCandidates, Refused, Mid;
    WrittenReads(v, common, [], session);
    assert Written(v, common) + [] == Written(v, common);
  }

  /** The answer starts what the offer has brought. */
  lemma AnswerStarts(header: Lines, offered: seq<View>, codecs: set<nat>, ts: seq<View>, bundle: bool)
    requires |ts| == |offered| && forall k :: 0 <= k < |ts| ==> Mirrors(ts[k], offered[k])
    requires var offer := header + Concat(OfferSections(offered, codecs));
             MediaSections(offer) == OfferSections(offered, codecs) && SplitSections(offer)[0] == header
    ensures Starts(ts, header + Concat(OfferSections(offered, codecs)), bundle)
  {
    hide MediaSections, SplitSections, Concat, OfferSection, Rejected;
    forall k | 0 <= k < |ts| ensures HasIce(OfferSection(offered[k], k in codecs), header) {
      OfferSectionReads(offered[k], k in codecs, header);
    }
  }

  // The answer comes back.

  lemma AnswerSends(ts: seq<View>, common: set<nat>, k: nat, session: Lines)
    requires k < |ts| && !ts[k].rejected
    ensures Sends(AnswerSection(ts[k], k in common), session) <==> ts[k].sender != 0
  {
    hide Says, AnswerSection, Sends;
    AnswerSays(ts, |ts|, common, k);
    SectionSends(AnswerSection(ts[k], k in common), session);
  }

  /** The transceiver of the offering side behind a section of the answer. */
  predicate Agreed(v: View, before: View, answering: View, common: bool) {
    && v.mid == answering.mid == before.mid && v.rejected == !common && v.kind == before.kind
    && (common ==> v.sender == before.sender) && (v.receiver <==> common && before.receiver && answering.sender != 0)
  }

  lemma AnswerBack(ts: seq<View>, s: Lines, session: Lines, i: nat, bundle: bool, rtx: bool, generated: string)
    requires i < |ts| && IsSection(s) && Ready(ts[i])
    requires MsidReads(s) && Readable(s, session) && !HasCandidates(s)
    ensures var r := Answered(ts, s, session, i, bundle, rtx, generated);
            && r.ok && |r.ts| == |ts| && (forall k :: 0 <= k < |ts| && k != i ==> r.ts[k] == ts[k])
            && r.ts[i].rejected == Refused(s)
            && (Refused(s) ==> r.ts[i].mid == MidOr(s, generated) && r.ts[i].kind == s[0].kind)
            && (!Refused(s) ==> r.ts[i].mid == ts[i].mid && r.ts[i].kind == ts[i].kind && r.ts[i].sender == ts[i].sender)
            && (r.ts[i].receiver <==> !Refused(s) && ts[i].receiver && Sends(s, session))
  {
    hide MsidReads, Readable, HasCandidates, Refused, Sends, MidOr;
  }

  lemma {:induction false} AnswersBack(ts: seq<View>, was: seq<View>, answering: seq<View>, sections: seq<Lines>, session: Lines, i: nat,
                                       bundle: bool, common: set<nat>, rtx: set<nat>, generate: nat -> string)
    requires i <= |ts| == |was| == |answering| == |sections|
    requires forall k :: 0 <= k < |sections| ==> IsSection(sections[k])
    requires forall k :: 0 <= k < |sections| ==> sections[k] == AnswerSection(answering[k], k in common) && Mirrors(answering[k], was[k])
    requires forall k :: 0 <= k < |was| ==> Ready(was[k]) && was[k].mid != ""
    requires forall k :: 0 <= k < |ts| ==> if k < i then Agreed(ts[k], was[k], answering[k], k in common) else ts[k] == was[k]
    ensures var r := AnsweredFrom(ts, sections, session, i, bundle, rtx, generate);
            r.ok && |r.ts| == |ts| && forall k :: 0 <= k < |ts| ==> Agreed(r.ts[k], was[k], answering[k], k in common)
    decreases |sections| - i
  {
    hide Answered, MsidReads, Readable, HasCandidates, AnswerSection, Refused, Mid, Sends;
    if i < |sections| {
      AnswerSectionReads(answering[i], i in common, session);
      AnswerSends(answering, common, i, session);
      AnswerBack(ts, sections[i], session, i, bundle, i in rtx, generate(i));
      AnsweredNext(ts, sections, session, i, bundle, rtx, generate);
      AnswersBack(Answered(ts, sections[i], session, i, bundle, i in rtx, generate(i)).ts, was, answering, sections, session, i + 1,
                  bundle, common, rtx, generate);
    }
  }

  // The exchange.

  /** What an offer from a connection is made of. */
  ghost predicate IsOffer(offer: Lines, ts: seq<View>, codecs: set<nat>) {
    exists header: Lines :: header != [] && NoMedia(header) && offer == header + Concat(OfferSections(ts, codecs))
  }

  ghost predicate IsAnswer(answer: Lines, ts: seq<View>, common: set<nat>) {
    exists header: Lines :: header != [] && NoMedia(header) && answer == header + Concat(AnswerSections(ts, |ts|, common))
  }

  /** The sender of a transceiver, if there is one. */
  function SenderOf(ts: seq<View>, k: nat): (sender: int) {
    if k < |ts| then ts[k].sender else 0
  }

  /** Offering adds no senders. */
  lemma OfferSenders(ts: seq<View>, audio: Receive, video: Receive, bundle: bool, env: Env, generate: nat -> string)
    ensures var r := Offering(ts, audio, video, bundle, env, generate).ts;
            forall k :: 0 <= k < |r| ==> r[k].sender == SenderOf(ts, k)
  {
    hide Asked, EquippedFrom, Occurs;
    var a := Asked(ts, audio, video, bundle);
    AskedAre(ts, audio, video, bundle);
    EquippedAre(a, 0, bundle, env, generate);
    forall k | 0 <= k < |a| ensures Offering(ts, audio, video, bundle, env, generate).ts[k].sender == a[k].sender == SenderOf(ts, k) {
      assert Equips(a[k], EquippedFrom(a, 0, bundle, env, generate).ts[k]);
      if k < |ts| { assert a[k] == ts[k].(wantReceive := a[k].wantReceive); }
    }
  }

  /** The offering side: makes its offer and sets it. */
  method MakeOffer(a: RTCPeerConnection, audio: Receive, video: Receive, codecs: set<nat>, generate: nat -> string, ghost kinds: set<string>)
    returns (offer: Lines)
    requires a.Valid() && a.signalingState == Stable && kinds <= a.env.kinds && forall i :: generate(i) != ""
    requires AsksFor(a.Views(), audio, video, kinds) && forall v :: v in a.Views() ==> Fresh(v, kinds)
    modifies a, a.transceivers
    ensures a.Valid() && a.NoOthers() && a.signalingState == HaveLocalOffer && IsOffer(offer, a.Views(), codecs)
    ensures |a.Views()| == |Asked(old(a.Views()), audio, video, old(a.usingBundle))|
    ensures forall v :: v in a.Views() ==> Ready(v) && v.kind in kinds && v.mid != ""
    ensures forall k :: 0 <= k < |a.Views()| ==> a.Views()[k].sender == SenderOf(old(a.Views()), k)
  {
    hide RTCPeerConnection.Views, AllSeen, MediaSections, SplitSections, Orderly, AsksFor, Asked, EquippedFrom, Concat, OfferSections;
    OfferReady(a.Views(), audio, video, a.usingBundle, a.env, generate, kinds);
    OfferMids(a.Views(), audio, video, a.usingBundle, a.env, generate);
    OfferSenders(a.Views(), audio, video, a.usingBundle, a.env, generate);
    ghost var version, made := a.sessionVersion, Offering(a.Views(), audio, video, a.usingBundle, a.env, generate).ts;
    var r;
    r, offer := a.CreateOffer(audio, video, codecs, generate);
    assert r == Done && a.Views() == made;
    OfferIs(a.OfferHeader(version), made, codecs);
    OwnOffer(made);
    r := a.SetLocalDescription(Description(Offer, offer));
  }

  lemma OfferMids(ts: seq<View>, audio: Receive, video: Receive, bundle: bool, env: Env, generate: nat -> string)
    requires forall i :: generate(i) != ""
    ensures var r := Offering(ts, audio, video, bundle, env, generate); r.ok ==> forall v :: v in r.ts ==> v.mid != ""
    ensures |Offering(ts, audio, video, bundle, env, generate).ts| == |Asked(ts, audio, video, bundle)|
  {
    hide Asked, EquippedFrom;
    EquippedAre(Asked(ts, audio, video, bundle), 0, bundle, env, generate);
  }

  /** Writes the answer to the open offer and sets it. */
  method GiveAnswer(b: RTCPeerConnection, common: set<nat>) returns (answer: Lines)
    requires b.Valid() && b.signalingState == HaveRemoteOffer && b.remoteDescription.Some?
    requires |b.Offered()| == |b.Views()| && Starts(b.Views(), b.remoteDescription.v.lines, b.usingBundle)
    requires forall v :: v in b.Views() ==> Writable(v)
    modifies b, b.transceivers
    ensures b.Valid() && b.signalingState == Stable && b.transceivers == old(b.transceivers)
    ensures b.Views() == old(b.Views()) && IsAnswer(answer, b.Views(), common)
  {
    hide RTCPeerConnection.Views, AllSeen, MediaSections, SplitSections, Orderly, Concat, OfferSections, AnswerSections, Starts, Writable,
      RTCPeerConnection.Valid, RTCPeerConnection.InStep, NoMedia;
    var r;
    ghost var version := b.sessionVersion;
    assert forall k :: 0 <= k < |b.Views()| ==> b.Views()[k] in b.Views();
    r, answer := b.CreateAnswer(common);
    r := b.SetLocalDescription(Description(Answer, answer));
  }

  /** The answering side: a new connection that takes an offer and sets its answer. */
  method TakeOffer(env: Env, policy: BundlePolicy, offer: Lines, common: set<nat>, generate: nat -> string, ghost codecs: set<nat>,
                   ghost offered: seq<View>)
    returns (b: RTCPeerConnection, answer: Lines)
    requires IsOffer(offer, offered, codecs) && forall k :: 0 <= k < |offered| ==> k in codecs && offered[k].kind in env.kinds
    ensures fresh(b) && b.Valid() && b.signalingState == Stable && IsAnswer(answer, b.Views(), common)
    ensures |b.Views()| == |offered| && forall k :: 0 <= k < |offered| ==> Mirrors(b.Views()[k], offered[k])
    ensures forall k :: 0 <= k < |b.transceivers| ==> fresh(b.transceivers[k])
  {
    hide RTCPeerConnection.Views, AllSeen, MediaSections, SplitSections, Orderly, Concat, OfferSections, AnswerSections, Remote, Mirrors,
      Starts, Writable, RTCPeerConnection.Valid, RTCPeerConnection.InStep, Header, Groups, NoMedia, IsAnswer;
    ghost var header: Lines :| header != [] && NoMedia(header) && offer == header + Concat(OfferSections(offered, codecs));
    TakesOffer(header, offered, codecs, env, generate);
    b := new RTCPeerConnection(env, policy);
    NoneSeen(b);
    var r := b.SetRemoteDescription(Description(Offer, offer), {}, generate);
    AnswerStarts(header, offered, codecs, b.Views(), b.usingBundle);
    answer := GiveAnswer(b, common);
  }

  /** A connection offers and a new one answers: every call gets done, both end stable, with
      as many transceivers, of the same mids and kinds. The offering side has refused what has
      no codec in common; the answering side receives exactly what the other sends, and sends
      nothing, so that the offering side receives nothing. */
  method Handshake(a: RTCPeerConnection, audio: Receive, video: Receive, codecs: set<nat>, generate: nat -> string,
                   env: Env, policy: BundlePolicy, common: set<nat>, rtx: set<nat>, generate': nat -> string, ghost kinds: set<string>)
    returns (b: RTCPeerConnection)
    requires a.Valid() && a.signalingState == Stable && kinds <= a.env.kinds && kinds <= env.kinds && forall i :: generate(i) != ""
    requires AsksFor(a.Views(), audio, video, kinds) && forall v :: v in a.Views() ==> Fresh(v, kinds)
    requires forall k :: 0 <= k < |Asked(a.Views(), audio, video, a.usingBundle)| ==> k in codecs
    modifies a, a.transceivers
    ensures a.Valid() && b.Valid() && fresh(b) && a.signalingState == b.signalingState == Stable
    ensures |a.Views()| == |b.Views()| == |Asked(old(a.Views()), audio, video, old(a.usingBundle))|
    ensures forall k :: 0 <= k < |a.Views()| ==>
              && a.Views()[k].mid == b.Views()[k].mid && a.Views()[k].kind == b.Views()[k].kind
              && a.Views()[k].rejected == (k !in common) && !b.Views()[k].rejected
    ensures forall k :: 0 <= k < |a.Views()| ==>
              && (b.Views()[k].receiver <==> SenderOf(old(a.Views()), k) != 0)
              && (k in common ==> a.Views()[k].sender == SenderOf(old(a.Views()), k))
              && b.Views()[k].sender == 0 && !a.Views()[k].receiver
  {
    hide RTCPeerConnection.Views, AllSeen, MediaSections, SplitSections, Orderly, IsOffer, Fresh, Asked, AsksFor, Remote, Ready,
      RTCPeerConnection.Valid, RTCPeerConnection.InStep, IsAnswer, Mirrors, Agreed, Aligned;
    var offer := MakeOffer(a, audio, video, codecs, generate, kinds);
    ghost var was := a.Views();
    var answer;
    b, answer := TakeOffer(env, policy, offer, common, generate', codecs, was);
    AnswerTaken(was, b.Views(), answer, a.env, common, rtx, generate');
    assert Apart(a, b);
    ghost var answering := b.Views();
    GetAnswer(a, b, answer, common, rtx, generate');
    BothSides(was, answering, a.Views(), common);
  }

  lemma BothSides(was: seq<View>, answering: seq<View>, ts: seq<View>, common: set<nat>)
    requires |was| == |answering| == |ts| && forall k :: 0 <= k < |was| ==> Mirrors(answering[k], was[k])
    requires forall k :: 0 <= k < |was| ==> Agreed(ts[k], was[k], answering[k], k in common)
    ensures forall k :: 0 <= k < |ts| ==>
              && ts[k].mid == answering[k].mid && ts[k].kind == answering[k].kind
              && ts[k].rejected == (k !in common) && !answering[k].rejected
    ensures forall k :: 0 <= k < |ts| ==>
              && (answering[k].receiver <==> was[k].sender != 0) && (k in common ==> ts[k].sender == was[k].sender)
              && answering[k].sender == 0 && !ts[k].receiver
  {}

  ghost predicate Apart(a: RTCPeerConnection, b: RTCPeerConnection)
    reads a, b
  {
    forall i, j :: 0 <= i < |a.transceivers| && 0 <= j < |b.transceivers| ==> a.transceivers[i] != b.transceivers[j]
  }

  /** The answer gets back to the offering side. */
  method GetAnswer(a: RTCPeerConnection, b: RTCPeerConnection, answer: Lines, common: set<nat>, rtx: set<nat>, generate: nat -> string)
    requires a.Valid() && b.Valid() && a.signalingState == HaveLocalOffer && b.signalingState == Stable && IsAnswer(answer, b.Views(), common)
    requires a != b && Apart(a, b) && |a.Views()| == |b.Views()|
    requires forall k :: 0 <= k < |a.Views()| ==> Ready(a.Views()[k]) && a.Views()[k].mid != "" && Mirrors(b.Views()[k], a.Views()[k])
    modifies a, a.transceivers
    ensures a.Valid() && b.Valid() && a.signalingState == b.signalingState == Stable
    ensures b.Views() == old(b.Views()) && |a.Views()| == |b.Views()|
    ensures forall k :: 0 <= k < |a.Views()| ==> Agreed(a.Views()[k], old(a.Views())[k], b.Views()[k], k in common)
  {
    hide RTCPeerConnection.Views, AllSeen, MediaSections, SplitSections, Orderly, Remote, Ready, Mirrors, Agreed, IsAnswer,
      RTCPeerConnection.Valid, RTCPeerConnection.InStep;
    AnswerTaken(a.Views(), b.Views(), answer, a.env, common, rtx, generate);
    var r := a.SetRemoteDescription(Description(Answer, answer), rtx, generate);
    assert forall k :: 0 <= k < |b.transceivers| ==> unchanged(b.transceivers[k]);
  }

  lemma AnswerTaken(was: seq<View>, answering: seq<View>, answer: Lines, env: Env, common: set<nat>, rtx: set<nat>, generate: nat -> string)
    requires |was| == |answering| && IsAnswer(answer, answering, common)
    requires forall k :: 0 <= k < |was| ==> Ready(was[k]) && was[k].mid != "" && Mirrors(answering[k], was[k])
    ensures var r := Remote(was, Description(Answer, answer), env, rtx, generate);
            && r.ok && |r.ts| == |was|
            && forall k :: 0 <= k < |was| ==> Agreed(r.ts[k], was[k], answering[k], k in common)
  {
    hide MediaSections, SplitSections, Concat, AnswerSections, AnsweredFrom, AnswerSection, Agreed;
    var header: Lines :| header != [] && NoMedia(header) && answer == header + Concat(AnswerSections(answering, |answering|, common));
    AnswerIs(header, answering, |answering|, common);
    var session := SplitSections(answer)[0];
    AnswersBack(was, was, answering, MediaSections(answer), session, 0, BundleGroup in session, common, rtx, generate);
  }
}
