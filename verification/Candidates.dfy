/** Writing and parsing ICE candidate lines (section 5.1 of RFC 8839). */
module Candidates {
  /** The values that a candidate object's properties take. */
  datatype Value = Text(s: string) | Number(n: int) | NaN | Undefined

  /** An object by its own properties. */
  type Object = map<string, Value>

  function Get(o: Object, name: string): (v: Value) {
    if name in o then o[name] else Undefined
  }

  predicate Truthy(v: Value) {
    match v
    case Text(s) => s != ""
    case Number(n) => n != 0
    case _ => false
  }

  /** `a || b` */
  function Either(a: Value, b: Value): (v: Value) {
    if Truthy(a) then a else b
  }

  // Numbers and strings.

  function Digits(n: nat): (s: string)
    ensures |s| >= 1
  {
    var d := [(n % 10) as char + '0'];
    if n < 10 then d else Digits(n / 10) + d
  }

  function Decimal(n: int): (s: string)
    ensures |s| >= 1
  {
    if n < 0 then "-" + Digits(-n) else Digits(n)
  }

  predicate IsDigit(c: char) {
    '0' <= c <= '9'
  }

  /** The digits at the start of s, as a number continuing n. */
  function Leading(s: string, n: nat): (r: nat) {
    if s == "" || !IsDigit(s[0]) then n else Leading(s[1..], n * 10 + (s[0] - '0') as nat)
  }

  /** White space and line terminators of ECMAScript. */
  predicate Blank(c: char) {
    || '\U{09}' <= c <= '\U{0D}' || c == ' ' || c == '\U{A0}' || c == '\U{1680}' || '\U{2000}' <= c <= '\U{200A}'
    || c == '\U{2028}' || c == '\U{2029}' || c == '\U{202F}' || c == '\U{205F}' || c == '\U{3000}' || c == '\U{FEFF}'
  }

  /** U+2000 to U+200A */
  const SPACES := set n: int | 0x2000 <= n < 0x200B

  lemma BlankIs(c: char)
    ensures Blank(c) <==> c as int in {9, 10, 11, 12, 13, 0x20, 0xA0, 0x1680, 0x2028, 0x2029, 0x202F, 0x205F, 0x3000, 0xFEFF} + SPACES
  {}

  function SkipBlanks(s: string): (r: string) {
    if s != "" && Blank(s[0]) then SkipBlanks(s[1..]) else s
  }

  /** `parseInt(s, 10)` */
  function ParseInt(v: Value): (r: Value) {
    if v.Text? then
      var s := SkipBlanks(v.s);
      var negative := s != "" && s[0] == '-';
      var t := if s != "" && s[0] in "+-" then s[1..] else s;
      if t == "" || !IsDigit(t[0]) then NaN
      else Number(if negative then 0 - Leading(t, 0) else Leading(t, 0))
    else if v.Number? then v else NaN
  }

  lemma {:induction false} DigitsAre(n: nat)
    ensures forall i :: 0 <= i < |Digits(n)| ==> IsDigit(Digits(n)[i])
  {
    if n >= 10 { DigitsAre(n / 10); }
  }

  lemma {:induction false} LeadingAppend(s: string, c: char, n: nat)
    requires (forall i :: 0 <= i < |s| ==> IsDigit(s[i])) && IsDigit(c)
    ensures Leading(s + [c], n) == Leading(s, n) * 10 + (c - '0') as nat
  {
    if s == "" {
      assert s + [c] == [c];
      assert [c][1..] == "";
    } else {
      assert (s + [c])[1..] == s[1..] + [c];
      LeadingAppend(s[1..], c, n * 10 + (s[0] - '0') as nat);
    }
  }

  lemma {:induction false} LeadingDigits(n: nat)
    ensures Leading(Digits(n), 0) == n
  {
    DigitsAre(n);
    if n < 10 {
      assert Digits(n)[1..] == "";
    } else {
      LeadingDigits(n / 10);
      DigitsAre(n / 10);
      LeadingAppend(Digits(n / 10), (n % 10) as char + '0', 0);
    }
  }

  lemma ParseDecimal(n: int)
    ensures ParseInt(Text(Decimal(n))) == Number(n)
  {
    var m := if n < 0 then -n else n;
    DigitsAre(m);
    LeadingDigits(m);
    assert ("-" + Digits(m))[1..] == Digits(m);
    assert IsDigit(Digits(m)[0]);
  }

  /** A number behind blanks and before anything that is not a digit. */
  lemma ParseNumber(blanks: string, sign: string, n: nat, rest: string)
    requires (forall i :: 0 <= i < |blanks| ==> Blank(blanks[i])) && (rest != "" ==> !IsDigit(rest[0]))
    requires sign in {"", "+", "-"}
    ensures ParseInt(Text(blanks + (sign + (Digits(n) + rest)))) == Number(if sign == "-" then 0 - n else n)
  {
    hide Digits, Leading, SkipBlanks;
    var t := Digits(n) + rest;
    DigitsAre(n);
    LeadingStops(Digits(n), rest, 0);
    LeadingDigits(n);
    assert t[0] == Digits(n)[0] && IsDigit(t[0]);
    assert sign != "" ==> (sign + t)[0] == sign[0] && (sign + t)[1..] == t;
    assert sign == "" ==> sign + t == t;
    SkipsBlanks(blanks, sign + t);
  }

  lemma {:induction false} SkipsBlanks(blanks: string, s: string)
    requires (forall i :: 0 <= i < |blanks| ==> Blank(blanks[i])) && (s != "" ==> !Blank(s[0]))
    ensures SkipBlanks(blanks + s) == s
  {
    if blanks == "" {
      assert blanks + s == s;
    } else {
      assert (blanks + s)[1..] == blanks[1..] + s;
      SkipsBlanks(blanks[1..], s);
    }
  }

  lemma {:induction false} LeadingStops(s: string, rest: string, n: nat)
    requires (forall i :: 0 <= i < |s| ==> IsDigit(s[i])) && (rest != "" ==> !IsDigit(rest[0]))
    ensures Leading(s + rest, n) == Leading(s, n)
  {
    if s == "" {
      assert s + rest == rest;
    } else {
      assert (s + rest)[1..] == s[1..] + rest;
      LeadingStops(s[1..], rest, n * 10 + (s[0] - '0') as nat);
    }
  }

  function LowerChar(c: char): (r: char) {
    if 'A' <= c <= 'Z' then c - 'A' + 'a' else c
  }

  function UpperChar(c: char): (r: char) {
    if 'a' <= c <= 'z' then c - 'a' + 'A' else c
  }

  function Lower(s: string): (r: string)
    ensures |r| == |s|
  {
    if s == "" then "" else [LowerChar(s[0])] + Lower(s[1..])
  }

  function Upper(s: string): (r: string)
    ensures |r| == |s|
  {
    if s == "" then "" else [UpperChar(s[0])] + Upper(s[1..])
  }

  lemma {:induction false} LowerUpper(s: string)
    ensures Lower(Upper(s)) == Lower(s)
  {
    if s != "" { LowerUpper(s[1..]); }
  }

  // Tokens.

  predicate SpaceFree(s: string) {
    ' ' !in s
  }

  /** `parts.join(' ')` */
  function Join(parts: seq<string>): (s: string) {
    if parts == [] then "" else if |parts| == 1 then parts[0] else parts[0] + " " + Join(parts[1..])
  }

  /** `s.split(' ')` */
  function Split(s: string): (parts: seq<string>)
    ensures |parts| >= 1
  {
    if s == "" then [""]
    else
      var rest := Split(s[1..]);
      if s[0] == ' ' then [""] + rest else [[s[0]] + rest[0]] + rest[1..]
  }

  lemma {:induction false} SplitToken(s: string)
    requires SpaceFree(s)
    ensures Split(s) == [s]
  {
    if s != "" {
      SplitToken(s[1..]);
      assert [s[0]] + s[1..] == s;
    }
  }

  lemma {:induction false} SplitFirst(s: string, t: string)
    requires SpaceFree(s)
    ensures Split(s + " " + t) == [s] + Split(t)
  {
    var u := s + " " + t;
    if s == "" {
      assert u[1..] == t;
    } else {
      SplitFirst(s[1..], t);
      assert u[1..] == s[1..] + " " + t;
      assert [s[0]] + s[1..] == s;
    }
  }

  /** Splitting undoes joining. */
  lemma {:induction false} SplitJoin(parts: seq<string>)
    requires parts != [] && forall i :: 0 <= i < |parts| ==> SpaceFree(parts[i])
    ensures Split(Join(parts)) == parts
  {
    if |parts| == 1 {
      SplitToken(parts[0]);
    } else {
      SplitJoin(parts[1..]);
      SplitFirst(parts[0], Join(parts[1..]));
    }
  }

  // Writing.

  /** How Array.join turns a value into a string. */
  function Show(v: Value): (s: string) {
    match v
    case Text(s) => s
    case Number(n) => Decimal(n)
    case NaN => "NaN"
    case Undefined => ""
  }

  datatype Line = Line(s: string) | TypeError

  function Related(o: Object): (parts: seq<string>) {
    if Get(o, "type") != Text("host") && Truthy(Get(o, "relatedAddress")) && Truthy(Get(o, "relatedPort")) then
      ["raddr", Show(Get(o, "relatedAddress")), "rport", Show(Get(o, "relatedPort"))]
    else []
  }

  function TcpType(o: Object): (parts: seq<string>)
    requires Get(o, "protocol").Text?
  {
    if Truthy(Get(o, "tcpType")) && Lower(Get(o, "protocol").s) == "tcp" then ["tcptype", Show(Get(o, "tcpType"))] else []
  }

  function Fragment(o: Object): (v: Value) {
    Either(Get(o, "usernameFragment"), Get(o, "ufrag"))
  }

  function Ufrag(o: Object): (parts: seq<string>) {
    if Truthy(Fragment(o)) then ["ufrag", Show(Fragment(o))] else []
  }

  function Basics(o: Object): (parts: seq<string>)
    requires Get(o, "protocol").Text?
  {
    [Show(Get(o, "foundation")), Show(Get(o, "component")), Upper(Get(o, "protocol").s), Show(Get(o, "priority")),
     Show(Either(Get(o, "address"), Get(o, "ip"))), Show(Get(o, "port")), "typ", Show(Get(o, "type"))]
  }

  function Written(o: Object): (l: Line) {
    if Get(o, "protocol").Text? then Line("candidate:" + Join(Basics(o) + Related(o) + TcpType(o) + Ufrag(o)))
    else TypeError
  }

  method WriteCandidate(o: Object) returns (l: Line)
    ensures l == Written(o)
  {
    var sdp: seq<string> := [];
    sdp := sdp + [Show(Get(o, "foundation"))];
    sdp := sdp + [Show(Get(o, "component"))];
    if !Get(o, "protocol").Text? { return TypeError; }
    sdp := sdp + [Upper(Get(o, "protocol").s)];
    sdp := sdp + [Show(Get(o, "priority"))];
    sdp := sdp + [Show(Either(Get(o, "address"), Get(o, "ip")))];
    sdp := sdp + [Show(Get(o, "port"))];
    var ty := Get(o, "type");
    sdp := sdp + ["typ"];
    sdp := sdp + [Show(ty)];
    assert sdp == Basics(o);
    if ty != Text("host") && Truthy(Get(o, "relatedAddress")) && Truthy(Get(o, "relatedPort")) {
      sdp := sdp + ["raddr"];
      sdp := sdp + [Show(Get(o, "relatedAddress"))];
      sdp := sdp + ["rport"];
      sdp := sdp + [Show(Get(o, "relatedPort"))];
    }
    assert sdp == Basics(o) + Related(o);
    if Truthy(Get(o, "tcpType")) && Lower(Get(o, "protocol").s) == "tcp" {
      sdp := sdp + ["tcptype"];
      sdp := sdp + [Show(Get(o, "tcpType"))];
    }
    assert sdp == Basics(o) + Related(o) + TcpType(o);
    if Truthy(Either(Get(o, "usernameFragment"), Get(o, "ufrag"))) {
      sdp := sdp + ["ufrag"];
      sdp := sdp + [Show(Either(Get(o, "usernameFragment"), Get(o, "ufrag")))];
    }
    assert sdp == Basics(o) + Related(o) + TcpType(o) + Ufrag(o);
    return Line("candidate:" + Join(sdp));
  }

  // Parsing.

  datatype Parsed = Parsed(o: Object) | NotALine

  function Part(parts: seq<string>, i: nat): (v: Value) {
    if i < |parts| then Text(parts[i]) else Undefined
  }

  /** `line.substring(n)` */
  function From(line: string, n: nat): (s: string) {
    if n <= |line| then line[n..] else ""
  }

  predicate StartsWith(line: string, prefix: string) {
    prefix <= line
  }

  function Body(line: string): (s: string) {
    From(line, if StartsWith(line, "a=candidate:") then 12 else 10)
  }

  function First(parts: seq<string>): (o: Object)
    requires |parts| >= 3
  {
    map["foundation" := Text(parts[0]), "component" := ParseInt(Text(parts[1])), "protocol" := Text(Lower(parts[2])),
        "priority" := ParseInt(Part(parts, 3)), "ip" := Part(parts, 4), "address" := Part(parts, 4),
        "port" := ParseInt(Part(parts, 5)), "type" := Part(parts, 7)]
  }

  /** One name and its value: the known extensions, or any other. */
  function Extend(o: Object, name: string, v: Value): (r: Object) {
    if name == "raddr" then o["relatedAddress" := v]
    else if name == "rport" then o["relatedPort" := ParseInt(v)]
    else if name == "tcptype" then o["tcpType" := v]
    else if name == "ufrag" then o["ufrag" := v]["usernameFragment" := v]
    else o[name := v]
  }

  function ExtendAll(o: Object, parts: seq<string>): (r: Object)
    decreases |parts|
  {
    if parts == [] then o
    else if |parts| == 1 then Extend(o, parts[0], Undefined)
    else ExtendAll(Extend(o, parts[0], Text(parts[1])), parts[2..])
  }

  function Read(line: string): (p: Parsed) {
    var parts := Split(Body(line));
    if |parts| < 3 then NotALine else Parsed(ExtendAll(First(parts), if |parts| > 8 then parts[8..] else []))
  }

  method ParseCandidate(line: string) returns (p: Parsed)
    ensures p == Read(line)
  {
    hide Extend, ParseInt, Split, Lower;
    var parts := Split(if StartsWith(line, "a=candidate:") then From(line, 12) else From(line, 10));
    if |parts| < 3 { return NotALine; }
    var candidate := First(parts);
    ghost var start := candidate;
    var i := 8;
    while i < |parts|
      invariant i >= 8
      invariant ExtendAll(candidate, if i <= |parts| then parts[i..] else [])
                == ExtendAll(start, if 8 <= |parts| then parts[8..] else [])
    {
      candidate := Extend(candidate, parts[i], Part(parts, i + 1));
      if i + 2 <= |parts| { assert parts[i..][2..] == parts[i + 2..]; }
      i := i + 2;
    }
    return Parsed(candidate);
  }

  // What every line is read as.

  /** The names that set a property. */
  function NamesOf(p: string): (names: set<string>) {
    match p
    case "relatedAddress" => {"raddr", "relatedAddress"}
    case "relatedPort" => {"rport", "relatedPort"}
    case "tcpType" => {"tcptype", "tcpType"}
    case "usernameFragment" => {"ufrag", "usernameFragment"}
    case "raddr" | "rport" | "tcptype" => {}
    case _ => {p}
  }

  /** Of the names, which stand at every other place from the given one on, the last one of
      the set is at i. */
  predicate LastAt(parts: seq<string>, from: nat, names: set<string>, i: nat) {
    && from <= i < |parts| && (i - from) % 2 == 0 && parts[i] in names
    && forall k :: i < k < |parts| && (k - from) % 2 == 0 ==> parts[k] !in names
  }

  predicate NoneFrom(parts: seq<string>, from: nat, names: set<string>) {
    forall k :: from <= k < |parts| && (k - from) % 2 == 0 ==> parts[k] !in names
  }

  /** The value behind a name, as a number for rport. */
  function ValueAt(parts: seq<string>, i: nat): (v: Value)
    requires i < |parts|
  {
    var v := if i + 1 < |parts| then Text(parts[i + 1]) else Undefined;
    if parts[i] == "rport" then ParseInt(v) else v
  }

  lemma ExtendIs(o: Object, name: string, v: Value, p: string)
    ensures var r := Extend(o, name, v);
            if name in NamesOf(p) then p in r && r[p] == if name == "rport" then ParseInt(v) else v
            else Get(r, p) == Get(o, p) && (p in r <==> p in o)
  {
    hide ParseInt;
  }

  lemma {:induction false} ExtendedIs(o: Object, parts: seq<string>, p: string)
    ensures var r := ExtendAll(o, parts);
            && (forall i: nat :: LastAt(parts, 0, NamesOf(p), i) ==> p in r && r[p] == ValueAt(parts, i))
            && (NoneFrom(parts, 0, NamesOf(p)) ==> Get(r, p) == Get(o, p) && (p in r <==> p in o))
    decreases |parts|
  {
    hide ParseInt, Extend, NamesOf;
    if parts != [] {
      var v := if |parts| == 1 then Undefined else Text(parts[1]);
      var rest := if |parts| == 1 then [] else parts[2..];
      ExtendIs(o, parts[0], v, p);
      ExtendedIs(Extend(o, parts[0], v), rest, p);
      assert forall k :: 0 <= k < |rest| ==> rest[k] == parts[k + 2];
      assert ExtendAll(o, parts) == ExtendAll(Extend(o, parts[0], v), rest);
      if NoneFrom(parts, 0, NamesOf(p)) {
        assert NoneFrom(rest, 0, NamesOf(p));
      }
      forall i: nat | LastAt(parts, 0, NamesOf(p), i)
        ensures var r := ExtendAll(o, parts); p in r && r[p] == ValueAt(parts, i)
      {
        if i == 0 {
          assert NoneFrom(rest, 0, NamesOf(p));
        } else {
          assert LastAt(rest, 0, NamesOf(p), i - 2) && ValueAt(rest, i - 2) == ValueAt(parts, i);
        }
      }
    }
  }

  /** The properties that every line has; one whose part is missing is undefined, or not a
      number. */
  lemma FirstIs(parts: seq<string>)
    requires |parts| >= 3
    ensures var o := First(parts);
            && o.Keys == {"foundation", "component", "protocol", "priority", "ip", "address", "port", "type"}
            && o["foundation"] == Text(parts[0]) && o["component"] == ParseInt(Text(parts[1])) && o["protocol"] == Text(Lower(parts[2]))
            && o["priority"] == (if |parts| > 3 then ParseInt(Text(parts[3])) else NaN)
            && o["ip"] == o["address"] == (if |parts| > 4 then Text(parts[4]) else Undefined)
            && o["port"] == (if |parts| > 5 then ParseInt(Text(parts[5])) else NaN)
            && o["type"] == if |parts| > 7 then Text(parts[7]) else Undefined
  {
    hide Lower, SkipBlanks, Leading;
  }

  /** What a line is read as: every property that some name behind the eighth part sets has
      the value given last for it, under its own name or the one that the line uses for it;
      any other is a basic one, or not there. */
  lemma ParsedIs(line: string, p: string)
    requires Read(line).Parsed?
    ensures var parts, o := Split(Body(line)), Read(line).o;
            && |parts| >= 3
            && (forall i: nat :: LastAt(parts, 8, NamesOf(p), i) ==> p in o && o[p] == ValueAt(parts, i))
            && (NoneFrom(parts, 8, NamesOf(p)) ==> Get(o, p) == Get(First(parts), p) && (p in o <==> p in First(parts)))
  {
    hide ParseInt, Extend, NamesOf, First, Split, Body, ExtendAll;
    var parts := Split(Body(line));
    var rest := if |parts| > 8 then parts[8..] else [];
    ExtendedIs(First(parts), rest, p);
    assert forall k :: 0 <= k < |rest| ==> rest[k] == parts[k + 8];
    if NoneFrom(parts, 8, NamesOf(p)) { assert NoneFrom(rest, 0, NamesOf(p)); }
    forall i: nat | LastAt(parts, 8, NamesOf(p), i)
      ensures LastAt(rest, 0, NamesOf(p), i - 8) && ValueAt(rest, i - 8) == ValueAt(parts, i)
    {}
  }

  /** A name that is none of the known ones is a property of its own, with the value given
      last for it. */
  lemma OtherNames(line: string, i: nat)
    requires Read(line).Parsed?
    requires var parts := Split(Body(line)); i < |parts| && LastAt(parts, 8, {parts[i]}, i)
    requires Split(Body(line))[i] !in {"raddr", "rport", "tcptype", "ufrag"}
    requires Split(Body(line))[i] !in {"relatedAddress", "relatedPort", "tcpType", "usernameFragment"}
    ensures var parts, o := Split(Body(line)), Read(line).o;
            parts[i] in o && o[parts[i]] == if i + 1 < |parts| then Text(parts[i + 1]) else Undefined
  {
    hide ParseInt, Extend, First, Split, Body, Read;
    ParsedIs(line, Split(Body(line))[i]);
  }

  // The round trip.

  predicate TokenOrNone(v: Value) {
    v == Undefined || (v.Text? && SpaceFree(v.s))
  }

  /** Fields are tokens without spaces and decimal integers. */
  predicate Tokens(o: Object) {
    && Get(o, "foundation").Text? && SpaceFree(Get(o, "foundation").s)
    && Get(o, "component").Number? && Get(o, "priority").Number? && Get(o, "port").Number?
    && Get(o, "protocol").Text? && SpaceFree(Get(o, "protocol").s)
    && TokenOrNone(Get(o, "ip")) && TokenOrNone(Get(o, "address")) && Either(Get(o, "address"), Get(o, "ip")).Text?
    && Get(o, "type").Text? && SpaceFree(Get(o, "type").s)
    && TokenOrNone(Get(o, "relatedAddress")) && (Get(o, "relatedPort").Number? || Get(o, "relatedPort") == Undefined)
    && TokenOrNone(Get(o, "tcpType")) && TokenOrNone(Get(o, "ufrag")) && TokenOrNone(Get(o, "usernameFragment"))
  }

  // What is written.

  /** A property that is missing leaves an empty part, and a failed number its name. */
  lemma ShowIs(s: string, n: int)
    ensures Show(Undefined) == "" && Show(NaN) == "NaN" && Show(Text(s)) == s && Show(Number(n)) == Decimal(n)
  {}

  lemma {:induction false} CaseIs(s: string, i: nat)
    requires i < |s|
    ensures var c, u, l := s[i] as int, Upper(s)[i] as int, Lower(s)[i] as int;
            u == (if 97 <= c <= 122 then c - 32 else c) && l == if 65 <= c <= 90 then c + 32 else c
  {
    if i > 0 { CaseIs(s[1..], i - 1); }
  }

  /** A text that is there and not empty. */
  predicate Says(o: Object, name: string) {
    name in o && o[name].Text? && o[name].s != ""
  }

  /** The parts of a candidate line: the address before its alias ip, the related address only
      with its port and not for a host candidate, the TCP type only for TCP in any case of
      letters, and the username fragment before its alias. */
  lemma PartsOf(o: Object)
    requires Tokens(o)
    ensures Says(o, "address") || (Get(o, "ip").Text? && (Get(o, "address") == Undefined || Get(o, "address") == Text("")))
    ensures Basics(o) == [o["foundation"].s, Decimal(o["component"].n), Upper(o["protocol"].s), Decimal(o["priority"].n),
                          if Says(o, "address") then o["address"].s else o["ip"].s, Decimal(o["port"].n), "typ", o["type"].s]
    ensures Related(o) == if o["type"] != Text("host") && Says(o, "relatedAddress") && Get(o, "relatedPort").Number? && o["relatedPort"].n != 0
                          then ["raddr", o["relatedAddress"].s, "rport", Decimal(o["relatedPort"].n)] else []
    ensures TcpType(o) == if Says(o, "tcpType") && Lower(o["protocol"].s) == "tcp" then ["tcptype", o["tcpType"].s] else []
    ensures Ufrag(o) == if Says(o, "usernameFragment") then ["ufrag", o["usernameFragment"].s]
                        else if Says(o, "ufrag") then ["ufrag", o["ufrag"].s] else []
  {
    hide Decimal, Upper, Lower, SpaceFree;
  }

  /** The object that comes back. */
  function Returned(o: Object): (r: Object)
    requires Get(o, "protocol").Text?
  {
    WithUfrag(WithTcpType(WithRelated(Basic(o), o), o), o)
  }

  function Basic(o: Object): (r: Object)
    requires Get(o, "protocol").Text?
  {
    var address := Either(Get(o, "address"), Get(o, "ip"));
    map["foundation" := Get(o, "foundation"), "component" := Get(o, "component"),
        "protocol" := Text(Lower(Get(o, "protocol").s)), "priority" := Get(o, "priority"),
        "ip" := address, "address" := address, "port" := Get(o, "port"), "type" := Get(o, "type")]
  }

  function WithRelated(r: Object, o: Object): (r': Object) {
    if Related(o) == [] then r
    else r["relatedAddress" := Get(o, "relatedAddress")]["relatedPort" := Get(o, "relatedPort")]
  }

  function WithTcpType(r: Object, o: Object): (r': Object)
    requires Get(o, "protocol").Text?
  {
    if TcpType(o) == [] then r else r["tcpType" := Get(o, "tcpType")]
  }

  function WithUfrag(r: Object, o: Object): (r': Object) {
    if Ufrag(o) == [] then r else r["ufrag" := Fragment(o)]["usernameFragment" := Fragment(o)]
  }

  lemma ExtendTwo(o: Object, name: string, s: string, rest: seq<string>)
    ensures ExtendAll(o, [name, s] + rest) == ExtendAll(Extend(o, name, Text(s)), rest)
  {
    hide Extend;
    assert ([name, s] + rest)[2..] == rest;
  }

  lemma {:induction false} UpperSpaceFree(s: string)
    requires SpaceFree(s)
    ensures SpaceFree(Upper(s))
  {
    if s != "" {
      UpperSpaceFree(s[1..]);
    }
  }

  lemma DecimalSpaceFree(n: int)
    ensures SpaceFree(Decimal(n))
  {
    DigitsAre(if n < 0 then -n else n);
  }

  lemma BasicsSpaceFree(o: Object)
    requires Tokens(o)
    ensures forall i :: 0 <= i < |Basics(o)| ==> SpaceFree(Basics(o)[i])
  {
    hide Decimal, Upper;
    UpperSpaceFree(Get(o, "protocol").s);
    DecimalSpaceFree(Get(o, "component").n);
    DecimalSpaceFree(Get(o, "priority").n);
    DecimalSpaceFree(Get(o, "port").n);
  }

  lemma ExtensionsSpaceFree(o: Object)
    requires Tokens(o)
    ensures var r := Related(o) + TcpType(o) + Ufrag(o); forall i :: 0 <= i < |r| ==> SpaceFree(r[i])
  {
    hide Decimal, Lower;
    if Get(o, "relatedPort").Number? { DecimalSpaceFree(Get(o, "relatedPort").n); }
    var a, b, c := Related(o), TcpType(o), Ufrag(o);
    assert forall i :: 0 <= i < |a| ==> SpaceFree(a[i]);
    assert forall i :: 0 <= i < |b| ==> SpaceFree(b[i]);
    assert forall i :: 0 <= i < |c| ==> SpaceFree(c[i]);
  }

  lemma Bodies(j: string)
    ensures Body("candidate:" + j) == j && Body("a=" + ("candidate:" + j)) == j
  {
    var l, m := "candidate:" + j, "a=" + ("candidate:" + j);
    assert l[0] == 'c' && !StartsWith(l, "a=candidate:");
    assert m == "a=candidate:" + j;
    assert l[10..] == j && m[12..] == j;
  }

  lemma FirstRead(o: Object, rest: seq<string>)
    requires Tokens(o)
    ensures var address := Either(Get(o, "address"), Get(o, "ip"));
            First(Basics(o) + rest)
            == map["foundation" := Get(o, "foundation"), "component" := Get(o, "component"),
                   "protocol" := Text(Lower(Get(o, "protocol").s)), "priority" := Get(o, "priority"),
                   "ip" := address, "address" := address, "port" := Get(o, "port"), "type" := Get(o, "type")]
  {
    hide ParseInt, Decimal, Lower, Upper;
    LowerUpper(Get(o, "protocol").s);
    ParseDecimal(Get(o, "component").n);
    ParseDecimal(Get(o, "priority").n);
    ParseDecimal(Get(o, "port").n);
  }

  lemma ExtensionsRead(o: Object, start: Object)
    requires Tokens(o)
    ensures ExtendAll(start, Related(o) + TcpType(o) + Ufrag(o)) ==
            var related := if Related(o) == [] then start
                           else start["relatedAddress" := Get(o, "relatedAddress")]["relatedPort" := Get(o, "relatedPort")];
            var tcp := if TcpType(o) == [] then related else related["tcpType" := Get(o, "tcpType")];
            if Ufrag(o) == [] then tcp else tcp["ufrag" := Fragment(o)]["usernameFragment" := Fragment(o)]
  {
    hide ParseInt, Decimal, Lower, ExtendAll;
    var b, c := TcpType(o), Ufrag(o);
    var related := start;
    if Related(o) != [] {
      var x, y := Show(Get(o, "relatedAddress")), Show(Get(o, "relatedPort"));
      ParseDecimal(Get(o, "relatedPort").n);
      assert Related(o) + b + c == ["raddr", x] + (["rport", y] + (b + c));
      ExtendTwo(start, "raddr", x, ["rport", y] + (b + c));
      ExtendTwo(start["relatedAddress" := Text(x)], "rport", y, b + c);
      related := start["relatedAddress" := Get(o, "relatedAddress")]["relatedPort" := Get(o, "relatedPort")];
    } else {
      assert Related(o) + b + c == b + c;
    }
    var tcp := related;
    if b != [] {
      assert b + c == ["tcptype", Get(o, "tcpType").s] + c;
      ExtendTwo(related, "tcptype", Get(o, "tcpType").s, c);
      tcp := related["tcpType" := Get(o, "tcpType")];
    } else {
      assert b + c == c;
    }
    if c != [] {
      assert c == ["ufrag", Fragment(o).s] + [];
      ExtendTwo(tcp, "ufrag", Fragment(o).s, []);
    }
    ExtendNone(tcp);
    ExtendNone(Extend(tcp, "ufrag", Fragment(o)));
  }

  lemma ExtendNone(o: Object)
    ensures ExtendAll(o, []) == o
  {}

  /** Any object whose fields are tokens comes back in this form, with and without `a=`. */
  lemma ReadWritten(o: Object)
    requires Tokens(o)
    ensures Written(o).Line?
    ensures Read(Written(o).s) == Parsed(Returned(o)) && Read("a=" + Written(o).s) == Parsed(Returned(o))
  {
    assert Get(o, "protocol").Text?;
    var rest := Related(o) + TcpType(o) + Ufrag(o);
    var parts := Basics(o) + Related(o) + TcpType(o) + Ufrag(o);
    assert parts == Basics(o) + rest;
    assert |Basics(o)| == 8;
    BasicsSpaceFree(o);
    ExtensionsSpaceFree(o);
    hide Basics, Related, TcpType, Ufrag, ParseInt, Lower, Upper, SpaceFree, Split, Join, ExtendAll, First, Body, Tokens;
    SplitJoin(parts);
    Bodies(Join(parts));
    FirstRead(o, rest);
    ExtensionsRead(o, First(parts));
    assert if |parts| > 8 then parts[8..] == rest else rest == [];
  }

  lemma SameComponent(o: Object)
    requires Tokens(o)
    ensures "component" in o && Get(o, "protocol").Text? && Get(Returned(o), "component") == o["component"]
  {
    hide Related, TcpType, Ufrag, Lower, Fragment;
  }

  const NAMES: set<string> := {"foundation", "component", "protocol", "priority", "ip", "address", "port", "type",
                               "relatedAddress", "relatedPort", "tcpType", "ufrag", "usernameFragment"}

  /** Nothing that a candidate line does not carry: both aliases agree, the protocol is in
      lower case, a related address only with its port and not for a host candidate, a TCP
      type only for TCP, and no other properties. */
  predicate Canonical(o: Object) {
    && o.Keys <= NAMES
    && "ip" in o && "address" in o && o["ip"] == o["address"]
    && Get(o, "protocol").Text? && Lower(Get(o, "protocol").s) == Get(o, "protocol").s
    && ("relatedAddress" in o || "relatedPort" in o ==>
          Get(o, "type") != Text("host") && Truthy(Get(o, "relatedAddress")) && Truthy(Get(o, "relatedPort")))
    && ("tcpType" in o ==> Truthy(Get(o, "tcpType")) && Get(o, "protocol") == Text("tcp"))
    && ("ufrag" in o || "usernameFragment" in o ==>
          Truthy(Get(o, "ufrag")) && Get(o, "ufrag") == Get(o, "usernameFragment"))
  }

  lemma SameIsCanonical(o: Object)
    requires Tokens(o) && Returned(o) == o
    ensures Canonical(o)
  {
    hide Lower, SpaceFree, Show, Either, Related, TcpType, Ufrag, Fragment, Returned;
    ReturnedHas(o);
    PartsAre(o);
  }

  /** What is in the object that comes back. */
  lemma ReturnedHas(o: Object)
    requires Get(o, "protocol").Text?
    ensures var r := Returned(o);
            && r.Keys <= NAMES && "ip" in r && "address" in r && r["ip"] == r["address"]
            && Get(r, "protocol") == Text(Lower(Get(o, "protocol").s))
            && ("relatedAddress" in r || "relatedPort" in r ==> Related(o) != [])
            && ("tcpType" in r ==> TcpType(o) != [])
            && ("ufrag" in r || "usernameFragment" in r ==>
                  Ufrag(o) != [] && Get(r, "ufrag") == Get(r, "usernameFragment") == Fragment(o))
  {
    hide Lower, Either, Related, TcpType, Ufrag, Fragment;
  }

  /** When a part is written. */
  lemma PartsAre(o: Object)
    requires Get(o, "protocol").Text?
    ensures Related(o) != [] ==>
              Get(o, "type") != Text("host") && Truthy(Get(o, "relatedAddress")) && Truthy(Get(o, "relatedPort"))
    ensures TcpType(o) != [] ==> Truthy(Get(o, "tcpType")) && Lower(Get(o, "protocol").s) == "tcp"
    ensures Ufrag(o) != [] ==> Truthy(Fragment(o))
  {
    hide Lower, Show, Either;
  }

  lemma CanonicalIsSame(o: Object)
    requires Tokens(o) && Canonical(o)
    ensures Returned(o) == o
  {
    hide Returned, Tokens, Canonical;
    SameKeys(o);
    SameValues(o);
  }

  lemma SameKeys(o: Object)
    requires Tokens(o) && Canonical(o)
    ensures Get(o, "protocol").Text? && Returned(o).Keys == o.Keys
  {
    hide Lower, SpaceFree;
    var r := Returned(o);
    forall x ensures x in r <==> x in o {}
  }

  lemma SameValues(o: Object)
    requires Tokens(o) && Canonical(o)
    ensures Get(o, "protocol").Text? && Agree(Returned(o), o)
  {
    hide Agree, Basic, WithRelated, WithTcpType, WithUfrag, Tokens, Canonical;
    ProtocolIsText(o);
    BasicAgrees(o);
    RelatedAgrees(Basic(o), o);
    TcpTypeAgrees(WithRelated(Basic(o), o), o);
    UfragAgrees(WithTcpType(WithRelated(Basic(o), o), o), o);
  }

  predicate Agree(r: Object, o: Object) {
    forall x :: x in o && x in r ==> r[x] == o[x]
  }

  lemma BasicAgrees(o: Object)
    requires Tokens(o) && Canonical(o)
    ensures Get(o, "protocol").Text? && Agree(Basic(o), o)
  {
    hide Lower, SpaceFree;
  }

  lemma RelatedAgrees(r: Object, o: Object)
    requires Agree(r, o)
    ensures Agree(WithRelated(r, o), o)
  {
    hide Related;
  }

  lemma TcpTypeAgrees(r: Object, o: Object)
    requires Agree(r, o) && Get(o, "protocol").Text?
    ensures Agree(WithTcpType(r, o), o)
  {
    hide TcpType;
  }

  lemma UfragAgrees(r: Object, o: Object)
    requires Agree(r, o) && Canonical(o)
    ensures Agree(WithUfrag(r, o), o)
  {
    hide Show, Lower, NAMES;
  }

  lemma ProtocolIsText(o: Object)
    requires Tokens(o)
    ensures Get(o, "protocol").Text?
  {
    hide Lower, SpaceFree, Show, Either;
  }

  /** A candidate survives writing and parsing, with or without `a=`, exactly when it is
      canonical. */
  lemma RoundTrip(o: Object)
    requires Tokens(o)
    ensures Written(o).Line?
    ensures Read(Written(o).s) == Parsed(o) <==> Canonical(o)
    ensures Read("a=" + Written(o).s) == Parsed(o) <==> Canonical(o)
  {
    hide Written, Read, Tokens, Canonical;
    ReadWritten(o);
    ProtocolIsText(o);
    if Returned(o) == o { SameIsCanonical(o); }
    if Canonical(o) { CanonicalIsSame(o); }
  }
}
