/** Session descriptions as the lists of their lines, their sections, and what the shim
    reads in a section. */
module Descriptions {
  import Candidates

  datatype Line =
    | MLine(kind: string, zeroPort: bool, protocol: string)
    | MidLine(mid: string)
    | BundleOnly
    | Origin(version: nat)
    | BundleGroup
    | IceUfrag
    | IcePwd
    | Msid
    | SsrcMsid(valued: bool)
    | Candidate(text: string)
    | Direction(text: string)
    | Text(text: string)

  type Lines = seq<Line>

  /** Lines cut in front of every media line. */
  function Cut(lines: Lines): (r: seq<Lines>)
    ensures |r| >= 1
  {
    if lines == [] then [[]]
    else
      var rest := Cut(lines[1..]);
      if lines[0].MLine? then [[], [lines[0]] + rest[0]] + rest[1..] else [[lines[0]] + rest[0]] + rest[1..]
  }

  /** The session part, which has at least the first line, and the media sections. */
  function SplitSections(lines: Lines): (r: seq<Lines>)
    ensures |r| >= 1
  {
    if lines == [] then [[]]
    else
      var rest := Cut(lines[1..]);
      [[lines[0]] + rest[0]] + rest[1..]
  }

  function MediaSections(lines: Lines): (r: seq<Lines>) {
    SplitSections(lines)[1..]
  }

  /** A media line and no other. */
  predicate IsSection(s: Lines) {
    |s| >= 1 && s[0].MLine? && forall i :: 1 <= i < |s| ==> !s[i].MLine?
  }

  predicate NoMedia(s: Lines) {
    forall i :: 0 <= i < |s| ==> !s[i].MLine?
  }

  lemma {:induction false} CutSections(lines: Lines)
    ensures NoMedia(Cut(lines)[0]) && forall i :: 1 <= i < |Cut(lines)| ==> IsSection(Cut(lines)[i])
  {
    if lines != [] {
      CutSections(lines[1..]);
      var rest := Cut(lines[1..]);
      if lines[0].MLine? {
        assert IsSection([lines[0]] + rest[0]);
        forall i | 1 <= i < |Cut(lines)| ensures IsSection(Cut(lines)[i]) {
          if i > 1 { assert Cut(lines)[i] == rest[i - 1]; }
        }
      }
    }
  }

  lemma SectionsAre(lines: Lines)
    ensures forall i :: 0 <= i < |MediaSections(lines)| ==> IsSection(MediaSections(lines)[i])
  {
    hide Cut;
    if lines != [] { CutSections(lines[1..]); }
  }

  lemma {:induction false} CutNoMedia(a: Lines, b: Lines)
    requires NoMedia(a)
    ensures Cut(a + b) == [a + Cut(b)[0]] + Cut(b)[1..]
  {
    if a == [] {
      assert a + b == b;
      var c := Cut(b);
      assert [] + c[0] == c[0] && c == [c[0]] + c[1..];
    } else {
      assert (a + b)[1..] == a[1..] + b;
      CutNoMedia(a[1..], b);
      var c := Cut(b);
      assert [a[0]] + (a[1..] + c[0]) == a + c[0];
      assert ([a[1..] + c[0]] + c[1..])[1..] == c[1..];
    }
  }

  lemma CutSection(s: Lines, b: Lines)
    requires IsSection(s)
    ensures Cut(s + b) == [[], s + Cut(b)[0]] + Cut(b)[1..]
  {
    assert (s + b)[1..] == s[1..] + b;
    CutNoMedia(s[1..], b);
    var c := Cut(b);
    assert [s[0]] + (s[1..] + c[0]) == s + c[0];
    assert ([s[1..] + c[0]] + c[1..])[1..] == c[1..];
  }

  function Concat(sections: seq<Lines>): (r: Lines) {
    if sections == [] then [] else sections[0] + Concat(sections[1..])
  }

  lemma {:induction false} CutConcat(sections: seq<Lines>)
    requires forall i :: 0 <= i < |sections| ==> IsSection(sections[i])
    ensures Cut(Concat(sections)) == [[]] + sections
  {
    hide Cut, IsSection;
    if sections == [] {
      CutNothing();
    } else {
      CutConcat(sections[1..]);
      CutSection(sections[0], Concat(sections[1..]));
      assert sections[0] + [] == sections[0];
    }
  }

  lemma CutNothing()
    ensures Cut([]) == [[]]
  {}

  /** Writing sections behind a session part and splitting them again. */
  lemma SectionsBack(header: Lines, sections: seq<Lines>)
    requires header != [] && NoMedia(header) && forall i :: 0 <= i < |sections| ==> IsSection(sections[i])
    ensures MediaSections(header + Concat(sections)) == sections
  {
    hide Cut, Concat, IsSection, MediaSections;
    var rest, c := header[1..], Concat(sections);
    assert (header + c)[1..] == rest + c;
    MediaRest(header + c);
    CutNoMedia(rest, c);
    CutConcat(sections);
    assert ([rest + Cut(c)[0]] + Cut(c)[1..])[1..] == Cut(c)[1..];
    assert ([[]] + sections)[1..] == sections;
  }

  /** The session part comes back as well. */
  lemma HeaderBack(header: Lines, sections: seq<Lines>)
    requires header != [] && NoMedia(header) && forall i :: 0 <= i < |sections| ==> IsSection(sections[i])
    ensures SplitSections(header + Concat(sections))[0] == header
  {
    hide Cut, Concat, IsSection, SplitSections;
    var rest, c := header[1..], Concat(sections);
    assert (header + c)[1..] == rest + c;
    FirstRest(header + c);
    CutNoMedia(rest, c);
    CutConcat(sections);
    assert [header[0]] + rest == header && rest + [] == rest;
  }

  lemma FirstRest(lines: Lines)
    requires lines != []
    ensures SplitSections(lines)[0] == [lines[0]] + Cut(lines[1..])[0]
  {
    hide Cut;
  }

  lemma MediaRest(lines: Lines)
    requires lines != []
    ensures MediaSections(lines) == Cut(lines[1..])[1..]
  {
    hide Cut;
  }

  // How many sections there are.

  function MediaLines(lines: Lines): (n: nat) {
    if lines == [] then 0 else MediaLines(lines[1..]) + if lines[0].MLine? then 1 else 0
  }

  lemma {:induction false} CutCount(lines: Lines)
    ensures |Cut(lines)| == 1 + MediaLines(lines)
  {
    if lines != [] { CutCount(lines[1..]); }
  }

  lemma {:induction false} MediaAppend(a: Lines, b: Lines)
    ensures MediaLines(a + b) == MediaLines(a) + MediaLines(b)
    decreases |a|
  {
    if a == [] {
      assert a + b == b;
    } else {
      assert (a + b)[1..] == a[1..] + b;
      MediaAppend(a[1..], b);
    }
  }

  lemma {:induction false} NoMediaCount(lines: Lines)
    requires NoMedia(lines)
    ensures MediaLines(lines) == 0
  {
    if lines != [] { NoMediaCount(lines[1..]); }
  }

  lemma {:induction false} ConcatLast(sections: seq<Lines>, s: Lines)
    ensures Concat(sections + [s]) == Concat(sections) + s
  {
    if sections == [] {
      assert sections + [s] == [s];
      assert [s][1..] == [];
    } else {
      assert (sections + [s])[1..] == sections[1..] + [s];
      ConcatLast(sections[1..], s);
    }
  }

  lemma NoConcat()
    ensures Concat([]) == []
  {}

  /** Behind a session part there are as many sections as media lines. */
  lemma SectionCount(header: Lines, lines: Lines)
    requires header != [] && NoMedia(header)
    ensures |MediaSections(header + lines)| == MediaLines(lines)
  {
    hide Cut, MediaLines, MediaSections;
    var rest := header[1..];
    assert (header + lines)[1..] == rest + lines;
    MediaRest(header + lines);
    CutCount(rest + lines);
    MediaAppend(rest, lines);
    NoMediaCount(rest);
  }

  // What a section says.

  /** The first mid line, or none. */
  function Mid(s: Lines): (mid: string) {
    if s == [] then "" else if s[0].MidLine? then s[0].mid else Mid(s[1..])
  }

  lemma {:induction false} MidAt(s: Lines, k: nat)
    requires k < |s| && s[k].MidLine? && forall i :: 0 <= i < k ==> !s[i].MidLine?
    ensures Mid(s) == s[k].mid
  {
    if k > 0 { MidAt(s[1..], k - 1); }
  }

  /** `getMid(section) || generateIdentifier()` */
  function MidOr(s: Lines, generated: string): (mid: string) {
    if Mid(s) != "" then Mid(s) else generated
  }

  predicate Rejected(s: Lines)
    requires IsSection(s)
  {
    s[0].zeroPort && BundleOnly !in s
  }

  /** Rejected by the other side, or a data channel, which is not implemented. */
  predicate Refused(s: Lines)
    requires IsSection(s)
  {
    Rejected(s) || (s[0].kind == "application" && s[0].protocol in {"DTLS/SCTP", "UDP/DTLS/SCTP"})
  }

  /** A section's direction is its own or else the session's: the first of these lines,
      sendrecv when there is none. */
  function DirectionOf(s: Lines): (d: string) {
    if s == [] then "sendrecv"
    else if s[0].Direction? && s[0].text in {"sendrecv", "sendonly", "recvonly", "inactive"} then s[0].text
    else DirectionOf(s[1..])
  }

  predicate Sends(s: Lines, session: Lines) {
    DirectionOf(s + session) in {"sendrecv", "sendonly"}
  }

  /** The first direction line of s has this text. */
  ghost predicate Says(s: Lines, text: string) {
    exists k: nat :: FirstDirection(s, k) && s[k].text == text
  }

  predicate FirstDirection(s: Lines, k: nat) {
    k < |s| && s[k].Direction? && forall i :: 0 <= i < k ==> !s[i].Direction?
  }

  lemma SaysOnly(s: Lines, k: nat, text: string)
    requires FirstDirection(s, k)
    ensures Says(s, text) <==> text == s[k].text
  {}

  /** What a section's first direction line says holds, whatever the session says. */
  lemma {:induction false} DirectionSaid(s: Lines, session: Lines, text: string)
    requires Says(s, text) && (text == "sendrecv" || text == "sendonly" || text == "recvonly" || text == "inactive")
    ensures DirectionOf(s + session) == text
    ensures Sends(s, session) <==> text == "sendrecv" || text == "sendonly"
    decreases |s|
  {
    var k: nat :| FirstDirection(s, k) && s[k].text == text;
    assert (s + session)[0] == s[0] && (s + session)[1..] == s[1..] + session;
    if k > 0 {
      assert FirstDirection(s[1..], k - 1);
      DirectionSaid(s[1..], session, text);
    }
  }

  /** Without a direction line in the section the session's counts, and without any at all
      the section sends and receives. */
  lemma {:induction false} DirectionUnsaid(s: Lines, session: Lines)
    requires forall l :: l in s ==> !l.Direction?
    ensures DirectionOf(s + session) == DirectionOf(session) && Sends(s, session) == Sends(session, [])
    ensures (forall l :: l in session ==> !l.Direction?) ==> DirectionOf(session) == "sendrecv" && Sends(s, session)
    decreases |s| + |session|
  {
    assert session + [] == session;
    if s == [] {
      assert s + session == session;
      if session != [] && !session[0].Direction? {
        DirectionUnsaid([], session[1..]);
        assert forall l :: l in session[1..] ==> l in session;
      }
    } else {
      assert s[0] in s && (s + session)[0] == s[0] && (s + session)[1..] == s[1..] + session;
      assert forall l :: l in s[1..] ==> l in s;
      DirectionUnsaid(s[1..], session);
    }
  }

  /** getIceParameters finds its two lines, in the section or in the session part. */
  predicate HasIce(s: Lines, session: Lines) {
    IceUfrag in s + session && IcePwd in s + session
  }

  function MsidLines(s: Lines): (n: nat) {
    if s == [] then 0 else MsidLines(s[1..]) + if s[0].Msid? then 1 else 0
  }

  /** The first msid attribute of a source has a value, when there is one at all. */
  predicate FirstValued(s: Lines) {
    s == [] || (if s[0].SsrcMsid? then s[0].valued else FirstValued(s[1..]))
  }

  /** parseMsid gets through: without exactly one msid line it takes apart the value of a
      source's msid attribute. */
  predicate MsidReads(s: Lines) {
    MsidLines(s) == 1 || FirstValued(s)
  }

  /** parseCandidate gets through on all candidate lines. */
  predicate CandidatesRead(s: Lines) {
    forall l :: l in s && l.Candidate? ==> Candidates.Read(l.text).Parsed?
  }

  /** Some candidate is for the first component. */
  predicate HasCandidates(s: Lines) {
    exists l :: l in s && l.Candidate? && Candidates.Read(l.text).Parsed?
      && Candidates.Get(Candidates.Read(l.text).o, "component") == Candidates.Number(1)
  }

  // When a section can be read.

  /** A section is refused when its port is zero without a=bundle-only, or when it is a data
      channel over SCTP; a zero port is no refusal while the section is only bundled. */
  lemma RefusedIs(s: Lines)
    requires IsSection(s)
    ensures Rejected(s) <==> s[0].zeroPort && forall l :: l in s ==> !l.BundleOnly?
    ensures Refused(s) <==> Rejected(s) || (s[0].kind == "application" && (s[0].protocol == "DTLS/SCTP" || s[0].protocol == "UDP/DTLS/SCTP"))
  {}

  lemma {:induction false} MsidLinesAre(s: Lines)
    ensures MsidLines(s) == multiset(s)[Msid]
  {
    if s != [] {
      MsidLinesAre(s[1..]);
      assert s == [s[0]] + s[1..];
    }
  }

  lemma {:induction false} FirstValuedIs(s: Lines)
    ensures FirstValued(s) <==> forall k :: 0 <= k < |s| && s[k] == SsrcMsid(false) ==> exists i :: 0 <= i < k && s[i] == SsrcMsid(true)
  {
    if s != [] {
      var t := s[1..];
      FirstValuedIs(t);
      if s[0].SsrcMsid? {
        assert s[0] == SsrcMsid(s[0].valued);
      } else {
        assert forall k :: 0 < k < |s| ==> s[k] == t[k - 1];
        assert forall k :: 0 <= k < |t| ==> t[k] == s[k + 1];
      }
    }
  }

  /** parseMsid throws exactly when there is not one msid line and the first msid of a source
      has no value. */
  lemma MsidThrows(s: Lines)
    ensures !MsidReads(s) <==>
            multiset(s)[Msid] != 1 && exists k: nat :: k < |s| && s[k] == SsrcMsid(false) && forall i :: 0 <= i < k ==> s[i] != SsrcMsid(true)
  {
    MsidLinesAre(s);
    FirstValuedIs(s);
    hide FirstValued, MsidLines;
  }

  /** Both ICE lines are needed; each may stand in the section or in the session part. */
  lemma HasIceIs(s: Lines, session: Lines)
    ensures HasIce(s, session) <==> (IceUfrag in s || IceUfrag in session) && (IcePwd in s || IcePwd in session)
  {}

  /** Candidate lines are read when each has a third part, the protocol. */
  lemma CandidatesReadIs(s: Lines)
    ensures CandidatesRead(s) <==> forall l :: l in s && l.Candidate? ==> |Candidates.Split(Candidates.Body(l.text))| >= 3
  {
    hide Candidates.Split, Candidates.Body, Candidates.First, Candidates.ExtendAll;
  }

  /** A written candidate counts when it is for the first component. */
  lemma ComponentOne(o: Candidates.Object, s: Lines)
    requires Candidates.Tokens(o) && Candidates.Written(o).Line?
    requires forall l :: l in s && l.Candidate? ==> l.text == Candidates.Written(o).s
    ensures HasCandidates(s) <==> "component" in o && o["component"] == Candidates.Number(1) && exists l :: l in s && l.Candidate?
  {
    Candidates.ReadWritten(o);
    Candidates.SameComponent(o);
    hide Candidates.Read, Candidates.Written, Candidates.Returned, Candidates.Tokens;
  }
}
