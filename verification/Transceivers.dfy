/** What each call of the peer connection makes of the transceivers, seen from outside, and
    when it throws on the way. */
module Transceivers {
  import opened Descriptions
  import Candidates

  /** A transceiver; of its transports, capabilities and encodings only whether they are there. */
  datatype View = View(
    kind: string, mid: string, rejected: bool, protocol: string,
    track: int, stream: int, sender: int, receiver: bool, wantReceive: bool,
    gatherer: bool, ice: bool, dtls: bool, local: bool, encodings: bool, remote: bool)

  /** The kinds that the browser has capabilities for, and whether it is recent (15019). */
  datatype Env = Env(kinds: set<string>, recent: bool)

  /** The transceivers when a call ends or throws, whether it went through, and the section
      it has come to. */
  datatype Step = Step(ts: seq<View>, ok: bool, at: nat)

  // The pieces of the calls.

  /** `_createTransceiver(kind)`: with BUNDLE the transports are those of the first one. */
  function New(kind: string, ts: seq<View>, bundle: bool): (v: View) {
    var shared := bundle && |ts| > 0;
    View(kind, "", false, "", 0, 0, 0, false, true, false,
         if shared then ts[0].ice else true, if shared then ts[0].dtls else true, false, false, false)
  }

  /** `{mid: mid, kind: kind, protocol: protocol, rejected: true}` */
  function Placeholder(mid: string, kind: string, protocol: string): (v: View) {
    View(kind, mid, true, protocol, 0, 0, 0, false, false, false, false, false, false, false, false)
  }

  function Put<T>(ts: seq<T>, i: nat, v: T): (r: seq<T>)
    requires i <= |ts|
  {
    if i < |ts| then ts[i := v] else ts + [v]
  }

  function Recycled(ts: seq<View>, i: nat, kind: string, bundle: bool): (r: seq<View>)
    ensures |r| == |ts|
  {
    if i < |ts| && ts[i].rejected then ts[i := New(kind, ts, bundle)] else ts
  }

  /** With BUNDLE all later transceivers take the transports of the first. */
  function Bundled(ts: seq<View>, i: nat, bundle: bool): (r: seq<View>)
    ensures |r| == |ts|
  {
    if bundle && 0 < i < |ts| then
      ts[i := ts[i].(gatherer := ts[0].gatherer, ice := ts[0].ice, dtls := ts[0].dtls)]
    else ts
  }

  function Reached(ts: seq<View>, i: nat, kind: string, bundle: bool): (r: seq<View>)
    requires i <= |ts|
    ensures |r| > i
  {
    if i < |ts| then ts else ts + [New(kind, ts, bundle)]
  }

  /** `if (!t.iceGatherer) t.iceGatherer = pc._createIceGatherer(i, bundle)` */
  function Gathered(ts: seq<View>, i: nat, bundle: bool): (r: seq<View>)
    requires i < |ts|
    ensures |r| == |ts|
  {
    if ts[i].gatherer then ts
    else ts[i := ts[i].(gatherer := if bundle && i > 0 then ts[0].gatherer else true)]
  }

  /** The ICE lines and the candidates of a live section can be read. */
  predicate Readable(s: Lines, session: Lines) {
    HasIce(s, session) && CandidatesRead(s)
  }

  /** Both ICE lines are there, and every candidate has its third part. */
  lemma ReadableIs(s: Lines, session: Lines)
    ensures Readable(s, session) <==>
            && (IceUfrag in s || IceUfrag in session) && (IcePwd in s || IcePwd in session)
            && forall l :: l in s && l.Candidate? ==> |Candidates.Split(Candidates.Body(l.text))| >= 3
  {
    hide Candidates.Split, Candidates.Body, HasIce, CandidatesRead;
    HasIceIs(s, session);
    CandidatesReadIs(s);
  }

  // A remote offer.

  function Described(v: View, sends: bool, capable: bool): (r: View) {
    v.(receiver := sends, local := capable, encodings := true, remote := true)
  }

  /** The transceiver of a live section, with its mid and its transports. */
  function Prepared(ts: seq<View>, s: Lines, i: nat, bundle: bool, generated: string): (r: seq<View>)
    requires IsSection(s) && i <= |ts|
    ensures |r| > i
  {
    var reached := Reached(Bundled(Recycled(ts, i, s[0].kind, bundle), i, bundle), i, s[0].kind, bundle);
    Gathered(reached[i := reached[i].(mid := MidOr(s, generated))], i, bundle)
  }

  /** One section of a remote offer, up to where it throws. */
  function Offered(ts: seq<View>, s: Lines, session: Lines, i: nat, bundle: bool, env: Env, generated: string): (r: Step)
    requires IsSection(s) && i <= |ts|
  {
    if !MsidReads(s) then Step(ts, false, i)
    else if Refused(s) then Step(Put(ts, i, Placeholder(MidOr(s, generated), s[0].kind, s[0].protocol)), true, i)
    else if !Readable(s, session) then Step(Recycled(ts, i, s[0].kind, bundle), false, i)
    else
      var p := Prepared(ts, s, i, bundle, generated);
      var capable := s[0].kind in env.kinds;
      if (HasCandidates(s) && !p[i].ice) || (!capable && !env.recent) then Step(p, false, i)
      else Step(p[i := Described(p[i], Sends(s, session), capable)], capable, i)
  }

  /** The sections of a remote offer from i on. */
  function OfferedFrom(ts: seq<View>, sections: seq<Lines>, session: Lines, i: nat, bundle: bool, env: Env,
                       generate: nat -> string): (r: Step)
    requires i <= |sections| && i <= |ts| && forall k :: 0 <= k < |sections| ==> IsSection(sections[k])
    decreases |sections| - i
  {
    if i == |sections| then Step(ts, true, i)
    else
      var r := Offered(ts, sections[i], session, i, bundle, env, generate(i));
      OfferedLength(ts, sections[i], session, i, bundle, env, generate(i));
      if !r.ok then r else OfferedFrom(r.ts, sections, session, i + 1, bundle, env, generate)
  }

  lemma OfferedNext(ts: seq<View>, sections: seq<Lines>, session: Lines, i: nat, bundle: bool, env: Env, generate: nat -> string)
    requires i < |sections| && i <= |ts| && forall k :: 0 <= k < |sections| ==> IsSection(sections[k])
    ensures var r := Offered(ts, sections[i], session, i, bundle, env, generate(i));
            (r.ok ==> |r.ts| > i) && OfferedFrom(ts, sections, session, i, bundle, env, generate)
            == if r.ok then OfferedFrom(r.ts, sections, session, i + 1, bundle, env, generate) else r
  {
    hide Offered;
    OfferedLength(ts, sections[i], session, i, bundle, env, generate(i));
  }

  lemma OfferedEnd(ts: seq<View>, sections: seq<Lines>, session: Lines, bundle: bool, env: Env, generate: nat -> string)
    requires |sections| <= |ts| && forall k :: 0 <= k < |sections| ==> IsSection(sections[k])
    ensures OfferedFrom(ts, sections, session, |sections|, bundle, env, generate) == Step(ts, true, |sections|)
  {}

  lemma OfferedLength(ts: seq<View>, s: Lines, session: Lines, i: nat, bundle: bool, env: Env, generated: string)
    requires IsSection(s) && i <= |ts|
    ensures var r := Offered(ts, s, session, i, bundle, env, generated);
            |ts| <= |r.ts| <= i + 1 + |ts| && (r.ok ==> |r.ts| > i) && r.at == i
            && (|r.ts| == |ts| || |r.ts| == i + 1)
  {
    hide MsidReads, Refused, Readable, HasCandidates, Sends, MidOr;
  }

  /** Only the section's own transceiver changes. */
  lemma OfferedElsewhere(ts: seq<View>, s: Lines, session: Lines, i: nat, bundle: bool, env: Env, generated: string, k: nat)
    requires IsSection(s) && i <= |ts| && k < |ts| && k != i
    ensures var r := Offered(ts, s, session, i, bundle, env, generated); k < |r.ts| && r.ts[k] == ts[k]
  {
    hide MsidReads, Refused, Readable, HasCandidates, Sends, MidOr;
  }

  /** The kind of the transceiver for an offered section: one that was there and is not
      rejected keeps its own. */
  function KindAfter(was: seq<View>, s: Lines, i: nat): (kind: string)
    requires IsSection(s)
  {
    if Refused(s) || i >= |was| || was[i].rejected then s[0].kind else was[i].kind
  }

  /** A transceiver stands for a section of an offer. */
  predicate Fits(v: View, s: Lines)
    requires IsSection(s)
  {
    && (Mid(s) != "" ==> v.mid == Mid(s))
    && v.rejected == Refused(s)
    && (if Refused(s) then v.kind == s[0].kind else v.local && v.remote && v.encodings)
  }

  /** The first transceiver's transports, where BUNDLE shares them. */
  predicate Shares(ts: seq<View>, i: nat, bundle: bool, v: View) {
    bundle && 0 < i && 0 < |ts| && v.gatherer == ts[0].gatherer && v.ice == ts[0].ice && v.dtls == ts[0].dtls
  }

  lemma OfferedFits(ts: seq<View>, s: Lines, session: Lines, i: nat, bundle: bool, env: Env, generated: string)
    requires IsSection(s) && i <= |ts| && Offered(ts, s, session, i, bundle, env, generated).ok
    ensures var r := Offered(ts, s, session, i, bundle, env, generated).ts;
            && i < |r| && Fits(r[i], s) && r[i].mid == MidOr(s, generated) && r[i].kind == KindAfter(ts, s, i)
            && (!Refused(s) && bundle && i > 0 ==> Shares(ts, i, bundle, r[i]))
            && (!Refused(s) && !(bundle && i > 0) ==> r[i].gatherer)
            && (!Refused(s) && !(bundle && i > 0) && (i == |ts| || (ts[i].rejected && !bundle)) ==> r[i].ice && r[i].dtls)
  {
    hide MsidReads, Readable, HasCandidates, Sends, Refused, Mid;
  }

  /** The mid that a failing section leaves on its transceiver. */
  function MidLeft(ts: seq<View>, s: Lines, session: Lines, i: nat, generated: string): (mid: string)
    requires IsSection(s) && i < |ts|
  {
    if !MsidReads(s) then ts[i].mid
    else if !Readable(s, session) then if ts[i].rejected then "" else ts[i].mid
    else MidOr(s, generated)
  }

  lemma OfferedFailing(ts: seq<View>, s: Lines, session: Lines, i: nat, bundle: bool, env: Env, generated: string)
    requires IsSection(s) && i < |ts| && !Offered(ts, s, session, i, bundle, env, generated).ok
    ensures var r := Offered(ts, s, session, i, bundle, env, generated);
            i < |r.ts| && r.ts[i].mid == MidLeft(ts, s, session, i, generated)
  {
    hide MsidReads, Readable, HasCandidates, Sends, Refused, MidOr;
  }

  /** The transceiver that a section k of an offer leaves. */
  predicate Matches(v: View, was: seq<View>, s: Lines, k: nat, generated: string)
    requires IsSection(s)
  {
    Fits(v, s) && v.mid == MidOr(s, generated) && v.kind == KindAfter(was, s, k)
  }

  /** What a remote offer leaves: the sections before the failing one have their
      transceivers, those behind it are as they were. */
  lemma {:induction false} OfferedAll(ts: seq<View>, sections: seq<Lines>, session: Lines, i: nat, bundle: bool, env: Env, generate: nat -> string)
    requires i <= |sections| && i <= |ts| && forall k :: 0 <= k < |sections| ==> IsSection(sections[k])
    ensures var r := OfferedFrom(ts, sections, session, i, bundle, env, generate);
            && i <= r.at <= |sections| && (r.ok <==> r.at == |sections|) && |ts| <= |r.ts| && r.at <= |r.ts|
            && (forall k :: 0 <= k < i ==> r.ts[k] == ts[k])
            && (forall k :: r.at < k < |ts| ==> r.ts[k] == ts[k])
            && (forall k :: i <= k < r.at ==> Matches(r.ts[k], ts, sections[k], k, generate(k)))
            && (r.at < |sections| && r.at < |ts| ==>
                  r.ts[r.at].mid == MidLeft(ts, sections[r.at], session, r.at, generate(r.at)))
            && (r.ok ==> |r.ts| == if |sections| > |ts| then |sections| else |ts|)
    decreases |sections| - i
  {
    hide Offered, Fits, KindAfter, MidLeft, MidOr;
    if i < |sections| {
      var s, g := sections[i], generate(i);
      var st := Offered(ts, s, session, i, bundle, env, g);
      OfferedLength(ts, s, session, i, bundle, env, g);
      forall k | 0 <= k < |ts| && k != i ensures st.ts[k] == ts[k] {
        OfferedElsewhere(ts, s, session, i, bundle, env, g, k);
      }
      if st.ok {
        OfferedFits(ts, s, session, i, bundle, env, g);
        OfferedAll(st.ts, sections, session, i + 1, bundle, env, generate);
        SameLater(ts, st.ts, sections, session, i, generate);
      } else if i < |ts| {
        OfferedFailing(ts, s, session, i, bundle, env, g);
      }
    }
  }

  /** What the later sections see does not depend on the earlier transceivers. */
  lemma SameLater(ts: seq<View>, ts': seq<View>, sections: seq<Lines>, session: Lines, i: nat, generate: nat -> string)
    requires forall k :: 0 <= k < |sections| ==> IsSection(sections[k])
    requires i <= |ts| <= |ts'| && (|ts'| == |ts| || |ts'| == i + 1) && forall k :: i < k < |ts| ==> ts'[k] == ts[k]
    ensures forall k :: i < k < |sections| ==> KindAfter(ts', sections[k], k) == KindAfter(ts, sections[k], k)
    ensures forall k :: i < k < |sections| && k < |ts| ==>
              MidLeft(ts', sections[k], session, k, generate(k)) == MidLeft(ts, sections[k], session, k, generate(k))
  {
    hide Refused, MsidReads, Readable, MidOr;
  }

  // Which offers go through.

  /** The transceiver whose transports section k gets when it is reached: with BUNDLE the
      first one, which a refused first section leaves without any; a new one has its own. */
  function Lent(ts: seq<View>, sections: seq<Lines>, k: nat, bundle: bool): (v: View)
    requires sections != [] && IsSection(sections[0])
  {
    if bundle && k > 0 then
      if Refused(sections[0]) then Placeholder("", "", "") else if ts == [] then New("", [], false) else ts[0]
    else if k < |ts| && (!ts[k].rejected || bundle) then ts[k]
    else New("", [], false)
  }

  /** A section of a remote offer goes through, with or without an ICE transport. */
  predicate GoesOn(s: Lines, session: Lines, env: Env, ice: bool)
    requires IsSection(s)
  {
    MsidReads(s) && (Refused(s) || (Readable(s, session) && s[0].kind in env.kinds && (HasCandidates(s) ==> ice)))
  }

  /** The same, seen before the offer is handled. */
  predicate Passes(ts: seq<View>, sections: seq<Lines>, k: nat, session: Lines, bundle: bool, env: Env)
    requires k < |sections| && IsSection(sections[0]) && IsSection(sections[k])
  {
    GoesOn(sections[k], session, env, Lent(ts, sections, k, bundle).ice)
  }

  /** The first section that does not pass, or the end. */
  function FirstThrow(ts: seq<View>, sections: seq<Lines>, session: Lines, n: nat, bundle: bool, env: Env): (at: nat)
    requires n <= |sections| && forall k :: 0 <= k < |sections| ==> IsSection(sections[k])
    ensures n <= at <= |sections| && (at < |sections| ==> !Passes(ts, sections, at, session, bundle, env))
    ensures forall k :: n <= k < at ==> Passes(ts, sections, k, session, bundle, env)
    decreases |sections| - n
  {
    if n == |sections| || !Passes(ts, sections, n, session, bundle, env) then n
    else FirstThrow(ts, sections, session, n + 1, bundle, env)
  }

  /** What of the transceivers matters for the sections from i on, when those before have been handled. */
  predicate Ahead(was: seq<View>, ts: seq<View>, sections: seq<Lines>, i: nat, bundle: bool)
    requires i > 0 ==> sections != [] && IsSection(sections[0])
  {
    && |ts| == (if i > |was| then i else |was|) && (forall k :: i <= k < |was| ==> ts[k] == was[k])
    && (i > 0 && bundle ==>
          var v := Lent(was, sections, i, bundle);
          ts[0].ice == v.ice && ts[0].dtls == v.dtls && ts[0].gatherer == !Refused(sections[0]))
  }

  /** The transports that a live section's transceiver has been given. */
  lemma PreparedHas(ts: seq<View>, s: Lines, i: nat, bundle: bool, generated: string)
    requires IsSection(s) && i <= |ts|
    ensures var p := Prepared(ts, s, i, bundle, generated);
            var v := if bundle && i > 0 then ts[0]
                     else if i < |ts| && (!ts[i].rejected || bundle) then ts[i] else New("", [], false);
            && p[i].ice == v.ice && p[i].dtls == v.dtls && p[i].gatherer == (bundle && i > 0 ==> ts[0].gatherer)
  {
    hide MidOr;
  }

  /** What a section that goes through leaves of its transports. */
  lemma OfferedHas(ts: seq<View>, s: Lines, session: Lines, i: nat, bundle: bool, env: Env, generated: string)
    requires IsSection(s) && i <= |ts|
    ensures var r, p := Offered(ts, s, session, i, bundle, env, generated), Prepared(ts, s, i, bundle, generated);
            && (r.ok <==> GoesOn(s, session, env, p[i].ice))
            && (r.ok ==> i < |r.ts| && if Refused(s) then !r.ts[i].ice && !r.ts[i].dtls && !r.ts[i].gatherer
                         else r.ts[i].ice == p[i].ice && r.ts[i].dtls == p[i].dtls && r.ts[i].gatherer == p[i].gatherer)
  {
    hide MsidReads, Refused, Readable, HasCandidates, Sends, MidOr, Prepared;
  }

  lemma PassesOne(was: seq<View>, ts: seq<View>, sections: seq<Lines>, session: Lines, i: nat, bundle: bool, env: Env, generated: string)
    requires i < |sections| && IsSection(sections[0]) && IsSection(sections[i]) && Ahead(was, ts, sections, i, bundle)
    ensures var r := Offered(ts, sections[i], session, i, bundle, env, generated);
            && (r.ok <==> Passes(was, sections, i, session, bundle, env))
            && (r.ok ==> Ahead(was, r.ts, sections, i + 1, bundle))
            && (r.ok && !Refused(sections[i]) ==>
                  (r.ts[i].gatherer && r.ts[i].dtls <==> Lent(was, sections, i, bundle).dtls))
  {
    hide MsidReads, Refused, Readable, HasCandidates, Sends, MidOr, Prepared, Offered;
    PreparedHas(ts, sections[i], i, bundle, generated);
    OfferedHas(ts, sections[i], session, i, bundle, env, generated);
    OfferedLength(ts, sections[i], session, i, bundle, env, generated);
    forall k | 0 <= k < |ts| && k != i ensures Offered(ts, sections[i], session, i, bundle, env, generated).ts[k] == ts[k] {
      OfferedElsewhere(ts, sections[i], session, i, bundle, env, generated, k);
    }
  }

  /** An offer goes through exactly when every section passes, and else throws at the first
      that does not. */
  lemma {:induction false} PassesAll(was: seq<View>, ts: seq<View>, sections: seq<Lines>, session: Lines, i: nat, bundle: bool, env: Env,
                                     generate: nat -> string)
    requires i <= |sections| && forall k :: 0 <= k < |sections| ==> IsSection(sections[k])
    requires Ahead(was, ts, sections, i, bundle)
    ensures i <= |ts|
    ensures var r := OfferedFrom(ts, sections, session, i, bundle, env, generate);
            && r.at == FirstThrow(was, sections, session, i, bundle, env) && (r.ok <==> r.at == |sections|)
            && (r.ok ==> |sections| <= |r.ts| && forall k :: i <= k < |sections| && !Refused(sections[k]) ==>
                  (r.ts[k].gatherer && r.ts[k].dtls <==> Lent(was, sections, k, bundle).dtls))
    decreases |sections| - i
  {
    hide Offered, Passes, Refused, Lent;
    if i < |sections| {
      OfferedNext(ts, sections, session, i, bundle, env, generate);
      OfferedLength(ts, sections[i], session, i, bundle, env, generate(i));
      PassesOne(was, ts, sections, session, i, bundle, env, generate(i));
      var r := Offered(ts, sections[i], session, i, bundle, env, generate(i));
      if r.ok {
        PassesAll(was, r.ts, sections, session, i + 1, bundle, env, generate);
        OfferedAll(r.ts, sections, session, i + 1, bundle, env, generate);
      }
    }
  }

  /** Which offers go through, where the others throw, and which live sections are left
      without a transport. */
  lemma OfferPasses(ts: seq<View>, sections: seq<Lines>, session: Lines, bundle: bool, env: Env, generate: nat -> string)
    requires forall k :: 0 <= k < |sections| ==> IsSection(sections[k])
    ensures var r := OfferedFrom(ts, sections, session, 0, bundle, env, generate);
            && r.at == FirstThrow(ts, sections, session, 0, bundle, env)
            && (r.ok <==> forall k :: 0 <= k < |sections| ==> Passes(ts, sections, k, session, bundle, env))
            && (r.ok ==> |sections| <= |r.ts| && forall k :: 0 <= k < |sections| && !Refused(sections[k]) ==>
                  (r.ts[k].gatherer && r.ts[k].dtls <==> Lent(ts, sections, k, bundle).dtls))
  {
    hide Passes, OfferedFrom, Lent, Refused;
    PassesAll(ts, ts, sections, session, 0, bundle, env, generate);
  }

  // Alignment with an offer.

  /** Transceiver k carries the mid of section k. */
  predicate Aligned(ts: seq<View>, offered: seq<Lines>) {
    |offered| <= |ts| && forall k :: 0 <= k < |offered| && Mid(offered[k]) != "" ==> ts[k].mid == Mid(offered[k])
  }

  predicate Fitting(ts: seq<View>, offered: seq<Lines>) {
    |offered| <= |ts| && forall k :: 0 <= k < |offered| ==> IsSection(offered[k]) && Fits(ts[k], offered[k])
  }

  /** The mid on transceiver k after an offer that failed at section at. */
  function MidAfter(ts: seq<View>, sections: seq<Lines>, session: Lines, at: nat, k: nat, generated: string): (mid: string)
    requires k <= at < |sections| && k < |ts| && IsSection(sections[k])
  {
    if k < at then MidOr(sections[k], generated) else MidLeft(ts, sections[k], session, k, generated)
  }

  /** The sections up to the first that does not pass leave the mids of the open offer. */
  predicate LeavesMids(ts: seq<View>, open: seq<Lines>, sections: seq<Lines>, session: Lines, bundle: bool, env: Env,
                       generate: nat -> string)
    requires |open| <= |ts| && forall k :: 0 <= k < |sections| ==> IsSection(sections[k])
  {
    var at := FirstThrow(ts, sections, session, 0, bundle, env);
    at < |sections| && forall k :: 0 <= k <= at && k < |open| && Mid(open[k]) != "" ==>
      Mid(open[k]) == MidAfter(ts, sections, session, at, k, generate(k))
  }

  /** An offer that throws while an earlier one is open keeps the transceivers aligned with
      the earlier one exactly when the sections up to the first that does not pass leave its
      mids. */
  lemma FailedOffer(ts: seq<View>, open: seq<Lines>, sections: seq<Lines>, session: Lines, bundle: bool, env: Env, generate: nat -> string)
    requires Aligned(ts, open) && forall k :: 0 <= k < |sections| ==> IsSection(sections[k])
    requires exists k :: 0 <= k < |sections| && !Passes(ts, sections, k, session, bundle, env)
    ensures var r := OfferedFrom(ts, sections, session, 0, bundle, env, generate);
            !r.ok && (Aligned(r.ts, open) <==> LeavesMids(ts, open, sections, session, bundle, env, generate))
  {
    hide OfferedFrom, Mid, MidOr, MidLeft, Fits, KindAfter, Passes, Lent, Refused;
    OfferedAll(ts, sections, session, 0, bundle, env, generate);
    OfferPasses(ts, sections, session, bundle, env, generate);
  }

  /** A completed offer is aligned with itself. */
  lemma CompletedOffer(ts: seq<View>, sections: seq<Lines>, session: Lines, bundle: bool, env: Env, generate: nat -> string)
    requires forall k :: 0 <= k < |sections| ==> IsSection(sections[k])
    requires OfferedFrom(ts, sections, session, 0, bundle, env, generate).ok
    ensures var r := OfferedFrom(ts, sections, session, 0, bundle, env, generate).ts;
            Aligned(r, sections) && Fitting(r, sections) && |ts| <= |r|
            && forall k :: 0 <= k < |sections| ==> r[k].kind == KindAfter(ts, sections[k], k)
  {
    hide OfferedFrom, Mid, Refused, MidLeft, KindAfter;
    OfferedAll(ts, sections, session, 0, bundle, env, generate);
  }

  /** What the other calls leave as it was: the transceivers stay, with their kinds, and with
      their mids once they have one. */
  predicate Keeps(ts: seq<View>, r: seq<View>) {
    |ts| <= |r| && forall k :: 0 <= k < |ts| ==>
      && r[k].kind == ts[k].kind && r[k].rejected == ts[k].rejected && r[k].protocol == ts[k].protocol
      && (ts[k].mid != "" ==> r[k].mid == ts[k].mid)
      && (ts[k].local ==> r[k].local) && (ts[k].remote ==> r[k].remote) && (ts[k].encodings ==> r[k].encodings)
      && (ts[k].gatherer ==> r[k].gatherer) && r[k].ice == ts[k].ice && r[k].dtls == ts[k].dtls
  }

  lemma KeepsAligned(ts: seq<View>, r: seq<View>, offered: seq<Lines>)
    requires Keeps(ts, r)
    ensures Aligned(ts, offered) ==> Aligned(r, offered)
    ensures Fitting(ts, offered) ==> Fitting(r, offered)
  {
    hide Mid, Refused;
  }

  // Directions.

  /** The sender that is left on the transceiver of an offered section. */
  function SenderKept(was: seq<View>, s: Lines, k: nat): (sender: int)
    requires IsSection(s)
  {
    if Refused(s) || k >= |was| || was[k].rejected then 0 else was[k].sender
  }

  lemma OfferedDirects(ts: seq<View>, s: Lines, session: Lines, i: nat, bundle: bool, env: Env, generated: string)
    requires IsSection(s) && i <= |ts| && Offered(ts, s, session, i, bundle, env, generated).ok
    ensures var r := Offered(ts, s, session, i, bundle, env, generated).ts;
            && i < |r| && r[i].sender == SenderKept(ts, s, i) && (Refused(s) ==> r[i].protocol == s[0].protocol)
            && (r[i].receiver <==> !Refused(s) && Sends(s, session))
  {
    hide MsidReads, Readable, HasCandidates, Sends, Refused, MidOr;
  }

  /** After an offer a transceiver has a receiver exactly when its section is live and sends,
      and keeps its sender unless it was refused, before or by this offer; a refused one has
      the protocol of its section. */
  lemma {:induction false} OfferDirects(ts: seq<View>, sections: seq<Lines>, session: Lines, i: nat, bundle: bool, env: Env,
                                        generate: nat -> string)
    requires i <= |sections| && i <= |ts| && forall k :: 0 <= k < |sections| ==> IsSection(sections[k])
    requires OfferedFrom(ts, sections, session, i, bundle, env, generate).ok
    ensures var r := OfferedFrom(ts, sections, session, i, bundle, env, generate).ts;
            && |sections| <= |r|
            && (forall k :: i <= k < |sections| ==> r[k].sender == SenderKept(ts, sections[k], k))
            && (forall k :: i <= k < |sections| && Refused(sections[k]) ==> r[k].protocol == sections[k][0].protocol)
            && (forall k :: i <= k < |sections| ==> (r[k].receiver <==> !Refused(sections[k]) && Sends(sections[k], session)))
    decreases |sections| - i
  {
    hide Offered, SenderKept, Sends, Refused, Matches, MidLeft;
    OfferedAll(ts, sections, session, i, bundle, env, generate);
    if i < |sections| {
      var st := Offered(ts, sections[i], session, i, bundle, env, generate(i));
      OfferedNext(ts, sections, session, i, bundle, env, generate);
      OfferedLength(ts, sections[i], session, i, bundle, env, generate(i));
      OfferedDirects(ts, sections[i], session, i, bundle, env, generate(i));
      OfferDirects(st.ts, sections, session, i + 1, bundle, env, generate);
      OfferedAll(st.ts, sections, session, i + 1, bundle, env, generate);
      forall k | i < k < |sections| ensures SenderKept(st.ts, sections[k], k) == SenderKept(ts, sections[k], k) {
        if k < |ts| { OfferedElsewhere(ts, sections[i], session, i, bundle, env, generate(i), k); }
        SameSender(ts, st.ts, sections[k], k);
      }
    }
  }

  lemma SameSender(a: seq<View>, b: seq<View>, s: Lines, k: nat)
    requires IsSection(s) && (k < |a| <==> k < |b|) && (k < |a| ==> a[k] == b[k])
    ensures SenderKept(a, s, k) == SenderKept(b, s, k)
  {}

  // A remote answer.

  /** One section of a remote answer, up to where it throws; rtx says whether both sides
      have retransmission. The receiver goes when the other side does not send. */
  function Answered(ts: seq<View>, s: Lines, session: Lines, i: nat, bundle: bool, rtx: bool, generated: string): (r: Step)
    requires IsSection(s) && i <= |ts|
  {
    if !MsidReads(s) then Step(ts, false, i)
    else if Refused(s) then Step(Put(ts, i, Placeholder(MidOr(s, generated), s[0].kind, s[0].protocol)), true, i)
    else
      var b := if Readable(s, session) then Bundled(Recycled(ts, i, s[0].kind, bundle), i, bundle)
               else Recycled(ts, i, s[0].kind, bundle);
      if !Readable(s, session) || i == |b| then Step(b, false, i)
      else
        Step(b[i := Accepted(b[i], s, session, i, bundle, rtx)], AnswerFits(b[i], s, session, i, bundle, rtx), i)
  }

  function Accepted(v: View, s: Lines, session: Lines, i: nat, bundle: bool, rtx: bool): (r: View) {
    if AnswerFits(v, s, session, i, bundle, rtx) then v.(remote := true, receiver := v.receiver && Sends(s, session))
    else v.(remote := true)
  }

  /** The transceiver has what starting its transports and its receiver takes. */
  predicate AnswerFits(v: View, s: Lines, session: Lines, i: nat, bundle: bool, rtx: bool) {
    && v.local
    && (HasCandidates(s) ==> v.ice)
    && (!bundle || i == 0 ==> v.ice && v.dtls)
    && (v.encodings || (rtx && !(v.receiver && Sends(s, session))))
  }

  function AnsweredFrom(ts: seq<View>, sections: seq<Lines>, session: Lines, i: nat, bundle: bool, rtx: set<nat>,
                        generate: nat -> string): (r: Step)
    requires i <= |sections| && i <= |ts| && forall k :: 0 <= k < |sections| ==> IsSection(sections[k])
    decreases |sections| - i
  {
    if i == |sections| then Step(ts, true, i)
    else
      var r := Answered(ts, sections[i], session, i, bundle, i in rtx, generate(i));
      AnsweredLength(ts, sections[i], session, i, bundle, i in rtx, generate(i));
      if !r.ok then r else AnsweredFrom(r.ts, sections, session, i + 1, bundle, rtx, generate)
  }

  lemma AnsweredNext(ts: seq<View>, sections: seq<Lines>, session: Lines, i: nat, bundle: bool, rtx: set<nat>, generate: nat -> string)
    requires i < |sections| && i <= |ts| && forall k :: 0 <= k < |sections| ==> IsSection(sections[k])
    ensures var r := Answered(ts, sections[i], session, i, bundle, i in rtx, generate(i));
            (r.ok ==> |r.ts| > i) && AnsweredFrom(ts, sections, session, i, bundle, rtx, generate)
            == if r.ok then AnsweredFrom(r.ts, sections, session, i + 1, bundle, rtx, generate) else r
  {
    hide Answered;
    AnsweredLength(ts, sections[i], session, i, bundle, i in rtx, generate(i));
  }

  lemma AnsweredLength(ts: seq<View>, s: Lines, session: Lines, i: nat, bundle: bool, rtx: bool, generated: string)
    requires IsSection(s) && i <= |ts|
    ensures var r := Answered(ts, s, session, i, bundle, rtx, generated);
            (|r.ts| == |ts| || |r.ts| == i + 1) && |ts| <= |r.ts| && (r.ok ==> |r.ts| > i) && r.at == i
  {
    hide MsidReads, Refused, Readable, AnswerFits, Sends, MidOr;
  }

  // Which answers go through.

  /** A section of a remote answer goes through, seen before the answer is handled. */
  predicate AnswerPasses(ts: seq<View>, sections: seq<Lines>, k: nat, session: Lines, bundle: bool, rtx: set<nat>)
    requires k < |sections| && IsSection(sections[0]) && IsSection(sections[k])
  {
    var s := sections[k];
    && MsidReads(s)
    && (Refused(s)
        || (Readable(s, session) && k < |ts| && !ts[k].rejected
            && var v := Lent(ts, sections, k, bundle);
               AnswerFits(ts[k].(ice := v.ice, dtls := v.dtls), s, session, k, bundle, k in rtx)))
  }

  /** What of the transceivers matters for the sections from i on. */
  predicate AnswerAhead(was: seq<View>, ts: seq<View>, sections: seq<Lines>, i: nat, bundle: bool)
    requires i > 0 ==> sections != [] && IsSection(sections[0])
  {
    && |ts| == (if i > |was| then i else |was|) && (forall k :: i <= k < |was| ==> ts[k] == was[k])
    && (i > 0 && bundle ==>
          var v := Lent(was, sections, i, bundle);
          (was == [] ==> Refused(sections[0])) && ts[0].ice == v.ice && ts[0].dtls == v.dtls)
  }

  lemma AnswerPassesOne(was: seq<View>, ts: seq<View>, sections: seq<Lines>, session: Lines, i: nat, bundle: bool, rtx: set<nat>,
                        generated: string)
    requires i < |sections| && IsSection(sections[0]) && IsSection(sections[i]) && AnswerAhead(was, ts, sections, i, bundle)
    ensures var r := Answered(ts, sections[i], session, i, bundle, i in rtx, generated);
            && (r.ok <==> AnswerPasses(was, sections, i, session, bundle, rtx))
            && (r.ok ==> AnswerAhead(was, r.ts, sections, i + 1, bundle))
  {
    hide MsidReads, Refused, Readable, HasCandidates, Sends, MidOr;
  }

  lemma {:induction false} AnswerPassesAll(was: seq<View>, ts: seq<View>, sections: seq<Lines>, session: Lines, i: nat, bundle: bool,
                                           rtx: set<nat>, generate: nat -> string)
    requires i <= |sections| && forall k :: 0 <= k < |sections| ==> IsSection(sections[k])
    requires AnswerAhead(was, ts, sections, i, bundle)
    ensures i <= |ts|
    ensures var r := AnsweredFrom(ts, sections, session, i, bundle, rtx, generate);
            r.ok <==> forall k :: i <= k < |sections| ==> AnswerPasses(was, sections, k, session, bundle, rtx)
    decreases |sections| - i
  {
    hide Answered, AnswerPasses, Refused;
    if i < |sections| {
      AnsweredNext(ts, sections, session, i, bundle, rtx, generate);
      AnsweredLength(ts, sections[i], session, i, bundle, i in rtx, generate(i));
      AnswerPassesOne(was, ts, sections, session, i, bundle, rtx, generate(i));
      var r := Answered(ts, sections[i], session, i, bundle, i in rtx, generate(i));
      if r.ok { AnswerPassesAll(was, r.ts, sections, session, i + 1, bundle, rtx, generate); }
    }
  }

  // Local descriptions.

  /** A local offer's sections give the transceivers their capabilities; each has to have a
      gatherer to start. */
  function LocalOffer(ts: seq<View>, n: nat): (r: Step)
    ensures |r.ts| == |ts|
  {
    Step(seq(|ts|, i requires 0 <= i < |ts| => if i < n then ts[i].(local := true) else ts[i]),
         n <= |ts| && forall v :: v in ts ==> v.gatherer, n)
  }

  /** A section of the remote offer is answered: what is live on both sides starts. */
  predicate Startable(v: View, s: Lines, session: Lines, i: nat, bundle: bool)
    requires IsSection(s)
  {
    Rejected(s) || v.rejected
    || (HasIce(s, session) && v.local && v.remote && (!bundle || i == 0 ==> v.gatherer && v.ice && v.dtls))
  }

  /** What has happened to a transceiver when it is either as it was or a new one. */
  predicate NoNewTracks(ts: seq<View>, r: seq<View>) {
    |ts| <= |r| && forall k :: 0 <= k < |r| ==>
      || (r[k].track == 0 && r[k].sender == 0 && r[k].stream == 0)
      || (k < |ts| && r[k].track == ts[k].track && r[k].sender == ts[k].sender && r[k].stream == ts[k].stream)
  }
}
