/** The combinators of the selector engine and their cache on the elements. */
module Combinators {
  datatype Dir = ParentNode | PreviousSibling

  /** What a matcher returns: only its truthiness is promised. */
  datatype Answer = Undefined | False | True

  /** `[dirruns, doneName, result]`, shared by reference among elements. */
  class Cache {
    const run: int
    const done: nat
    var result: Answer

    constructor (run: int, done: nat)
      ensures this.run == run && this.done == done && result == Undefined
    {
      this.run, this.done, result := run, done, Undefined;
    }
  }

  /** A node with its place in document order. */
  class Node {
    const order: nat
    const element: bool
    const parent: Node?
    const previous: Node?
    var cache: map<Dir, Cache>   // elem[expando][elem.uniqueID]

    constructor (order: nat, element: bool, parent: Node?, previous: Node?)
      ensures this.order == order && this.element == element && this.parent == parent && this.previous == previous
      ensures cache == map[]
    {
      this.order, this.element, this.parent, this.previous, cache := order, element, parent, previous, map[];
    }
  }

  function Step(n: Node, dir: Dir): (r: Node?) {
    if dir == ParentNode then n.parent else n.previous
  }

  /** A document: parents and previous siblings come earlier. */
  ghost predicate Document(doc: set<Node>) {
    forall n, dir :: n in doc && Step(n, dir) != null ==> Step(n, dir) in doc && Step(n, dir).order < n.order
  }

  /** Compiled matchers. A simple one is the set of the nodes it accepts in the context. */
  datatype Matcher =
    | Simple(accepted: set<Node>)
    | All(matchers: seq<Matcher>)
    | Combinator(dir: Dir, first: bool, base: bool, done: nat, inner: Matcher)

  /** `elem.nodeType === 1 || checkNonElements` */
  predicate Eligible(n: Node, dir: Dir, base: bool) {
    n.element || (base && dir == ParentNode)
  }

  /** The naive meaning. */
  ghost predicate Matches(doc: set<Node>, m: Matcher, n: Node)
    requires Document(doc) && n in doc
    decreases m, 0, 0
  {
    match m
    case Simple(accepted) => n in accepted
    case All(ms) => forall i :: 0 <= i < |ms| ==> Matches(doc, ms[i], n)
    case Combinator(dir, first, base, _, inner) =>
      if first then Nearest(doc, inner, dir, base, Step(n, dir)) else Above(doc, inner, dir, base, Step(n, dir))
  }

  /** The first eligible node from n on along dir matches. */
  ghost predicate Nearest(doc: set<Node>, m: Matcher, dir: Dir, base: bool, n: Node?)
    requires Document(doc) && (n != null ==> n in doc)
    decreases m, 1, if n == null then 0 else n.order + 1
  {
    n != null &&
    if Eligible(n, dir, base) then Matches(doc, m, n) else Nearest(doc, m, dir, base, Step(n, dir))
  }

  /** Some eligible node from n on along dir matches. */
  ghost predicate Above(doc: set<Node>, m: Matcher, dir: Dir, base: bool, n: Node?)
    requires Document(doc) && (n != null ==> n in doc)
    decreases m, 1, if n == null then 0 else n.order + 1
  {
    n != null && ((Eligible(n, dir, base) && Matches(doc, m, n)) || Above(doc, m, dir, base, Step(n, dir)))
  }

  /** n and the nodes along dir from it. */
  ghost function Line(doc: set<Node>, dir: Dir, n: Node?): (r: seq<Node>)
    requires Document(doc) && (n != null ==> n in doc)
    ensures forall k :: k in r ==> k in doc
    decreases if n == null then 0 else n.order + 1
  {
    if n == null then [] else [n] + Line(doc, dir, Step(n, dir))
  }

  lemma {:induction false} AboveIsSome(doc: set<Node>, m: Matcher, dir: Dir, base: bool, n: Node?)
    requires Document(doc) && (n != null ==> n in doc)
    ensures Above(doc, m, dir, base, n) <==>
            exists k :: k in Line(doc, dir, n) && Eligible(k, dir, base) && Matches(doc, m, k)
    decreases if n == null then 0 else n.order + 1
  {
    hide Matches, Eligible;
    if n != null {
      var rest := Line(doc, dir, Step(n, dir));
      AboveIsSome(doc, m, dir, base, Step(n, dir));
      assert forall k :: k in Line(doc, dir, n) <==> k == n || k in rest;
    }
  }

  /** Along the parents, or the previous siblings, up to the last. */
  lemma {:induction false} LineIs(doc: set<Node>, dir: Dir, n: Node)
    requires Document(doc) && n in doc
    ensures var s := Line(doc, dir, n);
            && |s| >= 1 && s[0] == n
            && (dir == ParentNode ==> s[|s| - 1].parent == null && forall i :: 0 <= i < |s| - 1 ==> s[i].parent == s[i + 1])
            && (dir == PreviousSibling ==> s[|s| - 1].previous == null && forall i :: 0 <= i < |s| - 1 ==> s[i].previous == s[i + 1])
    decreases n.order
  {
    var s := Line(doc, dir, n);
    var next := if dir == ParentNode then n.parent else n.previous;
    assert Step(n, dir) == next;
    if next != null {
      var t := Line(doc, dir, next);
      LineIs(doc, dir, next);
      assert s == [n] + t;
      forall i | 0 <= i < |s| - 1 ensures (if dir == ParentNode then s[i].parent else s[i].previous) == s[i + 1] {
        if i > 0 { assert s[i] == t[i - 1] && s[i + 1] == t[i]; }
      }
    }
  }

  /** Of the nodes on a line that are elements, or of all when the line is open to all, one
      matches. */
  ghost predicate SomeMatches(doc: set<Node>, m: Matcher, s: seq<Node>, open: bool)
    requires Document(doc) && forall k :: k in s ==> k in doc
  {
    exists k :: k in s && (k.element || open) && Matches(doc, m, k)
  }

  /** The first of them matches. */
  ghost predicate FirstMatches(doc: set<Node>, m: Matcher, s: seq<Node>, open: bool)
    requires Document(doc) && forall k :: k in s ==> k in doc
  {
    exists i: nat :: FirstAt(s, open, i) && Matches(doc, m, s[i])
  }

  predicate FirstAt(s: seq<Node>, open: bool, i: nat) {
    i < |s| && (s[i].element || open) && forall h :: 0 <= h < i ==> !s[h].element && !open
  }

  /** What a combinator asks of a node: of the nodes along its direction only the elements
      count, and only going up also other nodes if it checks those; some node that counts
      matches, or for `>` and `+` the first one that counts. */
  lemma CombinatorIs(doc: set<Node>, dir: Dir, base: bool, done: nat, inner: Matcher, n: Node)
    requires Document(doc) && n in doc
    ensures Step(n, ParentNode) == n.parent && Step(n, PreviousSibling) == n.previous
    ensures Matches(doc, Combinator(dir, false, base, done, inner), n)
            <==> SomeMatches(doc, inner, Line(doc, dir, Step(n, dir)), base && dir == ParentNode)
    ensures Matches(doc, Combinator(dir, true, base, done, inner), n)
            <==> FirstMatches(doc, inner, Line(doc, dir, Step(n, dir)), base && dir == ParentNode)
  {
    hide Nearest, Above;
    AboveIsSome(doc, inner, dir, base, Step(n, dir));
    NearestIsFirst(doc, inner, dir, base, Step(n, dir));
  }

  lemma {:induction false} NearestIsFirst(doc: set<Node>, m: Matcher, dir: Dir, base: bool, n: Node?)
    requires Document(doc) && (n != null ==> n in doc)
    ensures Nearest(doc, m, dir, base, n) <==> FirstMatches(doc, m, Line(doc, dir, n), base && dir == ParentNode)
    decreases if n == null then 0 else n.order + 1
  {
    hide Matches;
    if n != null {
      var open := base && dir == ParentNode;
      var s, rest := Line(doc, dir, n), Line(doc, dir, Step(n, dir));
      NearestIsFirst(doc, m, dir, base, Step(n, dir));
      assert s == [n] + rest;
      FirstOfLine(n, rest, open);
      if n.element || open {
        assert FirstAt(s, open, 0) && s[0] == n;
      } else {
        assert forall i: nat :: FirstAt(rest, open, i) ==> FirstAt(s, open, i + 1) && s[i + 1] == rest[i];
        assert forall i: nat :: FirstAt(s, open, i) ==> i > 0 && FirstAt(rest, open, i - 1) && s[i] == rest[i - 1];
      }
    }
  }

  lemma FirstOfLine(n: Node, rest: seq<Node>, open: bool)
    ensures if n.element || open then forall i: nat :: FirstAt([n] + rest, open, i) <==> i == 0
            else forall i: nat :: FirstAt([n] + rest, open, i) <==> i > 0 && FirstAt(rest, open, i - 1)
  {
    var s := [n] + rest;
    assert s[0] == n && forall h :: 0 < h < |s| ==> s[h] == rest[h - 1];
    if !(n.element || open) {
      forall i: nat ensures FirstAt(s, open, i) <==> i > 0 && FirstAt(rest, open, i - 1) {
        if FirstAt(s, open, i) && i > 0 { assert forall h :: 0 <= h < i - 1 ==> rest[h] == s[h + 1]; }
      }
    }
  }

  function OnlyElements(s: seq<Node>): (r: seq<Node>) {
    if s == [] then [] else if s[0].element then [s[0]] + OnlyElements(s[1..]) else OnlyElements(s[1..])
  }

  /** Among siblings, and above when only elements are checked, the elements alone decide:
      text and comments between them make no difference. */
  lemma ElementsDecide(doc: set<Node>, dir: Dir, base: bool, done: nat, inner: Matcher, n: Node)
    requires Document(doc) && n in doc && (dir == PreviousSibling || !base)
    ensures var s := OnlyElements(Line(doc, dir, Step(n, dir)));
            && (forall k :: k in s ==> k in doc)
            && (Matches(doc, Combinator(dir, false, base, done, inner), n) <==> exists k :: k in s && Matches(doc, inner, k))
            && (Matches(doc, Combinator(dir, true, base, done, inner), n) <==> s != [] && Matches(doc, inner, s[0]))
  {
    hide Nearest, Above;
    ElementsAlong(doc, inner, dir, base, Step(n, dir));
  }

  lemma FirstElement(n: Node, rest: seq<Node>)
    ensures OnlyElements([n] + rest) == (if n.element then [n] else []) + OnlyElements(rest)
  {
    assert ([n] + rest)[1..] == rest;
  }

  lemma AboveStep(doc: set<Node>, m: Matcher, dir: Dir, base: bool, n: Node)
    requires Document(doc) && n in doc && (dir == PreviousSibling || !base)
    ensures Above(doc, m, dir, base, n) <==> (n.element && Matches(doc, m, n)) || Above(doc, m, dir, base, Step(n, dir))
  {
    hide Matches;
  }

  lemma {:induction false} ElementsAlong(doc: set<Node>, m: Matcher, dir: Dir, base: bool, n: Node?)
    requires Document(doc) && (n != null ==> n in doc) && (dir == PreviousSibling || !base)
    ensures var s := OnlyElements(Line(doc, dir, n));
            && (forall k :: k in s ==> k in doc)
            && (Above(doc, m, dir, base, n) <==> exists k :: k in s && Matches(doc, m, k))
            && (Nearest(doc, m, dir, base, n) <==> s != [] && Matches(doc, m, s[0]))
    decreases if n == null then 0 else n.order + 1
  {
    hide Matches;
    if n != null {
      var rest := Line(doc, dir, Step(n, dir));
      ElementsAlong(doc, m, dir, base, Step(n, dir));
      FirstElement(n, rest);
      AboveStep(doc, m, dir, base, n);
    }
  }

  type Names = map<nat, Matcher>

  /** Every combinator got its own name when it was built, after those inside it. */
  ghost predicate Registered(m: Matcher, names: Names, bound: nat)
    decreases m
  {
    match m
    case Simple(_) => true
    case All(ms) => forall i :: 0 <= i < |ms| ==> Registered(ms[i], names, bound)
    case Combinator(_, _, _, done, inner) =>
      done < bound && done in names && names[done] == m && Registered(inner, names, done)
  }

  /** A cached result of this run is the naive one. */
  ghost predicate Right(doc: set<Node>, names: Names, c: Cache, n: Node, dir: Dir)
    requires Document(doc) && n in doc
    reads c
  {
    && c.done in names && names[c.done].Combinator? && names[c.done].dir == dir && !names[c.done].first
    && Eligible(n, dir, names[c.done].base)
    && ((c.result == True) <==> Above(doc, names[c.done].inner, dir, names[c.done].base, n))
  }

  /** All caches of this run with names below the bound are right, but for the one being filled. */
  ghost predicate Sound(doc: set<Node>, names: Names, run: int, bound: nat, filling: Cache?)
    requires Document(doc)
    reads doc, set n, dir | n in doc && dir in n.cache :: n.cache[dir]
  {
    forall n, dir :: n in doc && dir in n.cache && n.cache[dir] != filling && n.cache[dir].run == run && n.cache[dir].done < bound ==>
      Right(doc, names, n.cache[dir], n, dir)
  }

  /** Matching puts caches with names below the bound in place of others, and moves none. */
  twostate predicate Replaced(doc: set<Node>, bound: nat)
    reads doc
  {
    forall n, dir :: n in doc && dir in n.cache ==>
      n.cache[dir].done < bound || (dir in old(n.cache) && n.cache[dir] == old(n.cache[dir]))
  }

  lemma {:induction false} RegisteredBelow(m: Matcher, names: Names, low: nat, high: nat)
    requires Registered(m, names, low) && low <= high
    ensures Registered(m, names, high)
    decreases m
  {
    match m
    case Simple(_) =>
    case All(ms) => forall i | 0 <= i < |ms| { RegisteredBelow(ms[i], names, low, high); }
    case Combinator(_, _, _, done, inner) =>
  }

  lemma OwnName(dir: Dir, base: bool, done: nat, inner: Matcher, names: Names, bound: nat)
    requires Registered(Combinator(dir, false, base, done, inner), names, bound)
    ensures done < bound && done in names && names[done] == Combinator(dir, false, base, done, inner)
    ensures Registered(inner, names, done)
  {}

  /** The cache being filled lies only on nodes passed, from where the walk has found
      nothing before elem, and on elem itself when it is at it. */
  ghost predicate Held(doc: set<Node>, m: Matcher, dir: Dir, base: bool, cache: Cache, elem: Node?, at: bool)
    requires Document(doc) && (elem != null ==> elem in doc)
    reads doc
  {
    forall k, x :: k in doc && x in k.cache && k.cache[x] == cache ==>
      && x == dir && Eligible(k, dir, base) && Above(doc, m, dir, base, k) == Above(doc, m, dir, base, elem)
      && (elem != null ==> elem.order < k.order || (at && k == elem))
  }

  /** A new cache lies nowhere. */
  twostate lemma NotYet(doc: set<Node>, new names: Names, new run: int, new bound: nat, new m: Matcher, new dir: Dir,
                        new base: bool, new cache: Cache, new elem: Node?)
    requires Document(doc) && (elem != null ==> elem in doc) && fresh(cache)
    requires old(allocated(names)) && old(Sound(doc, names, run, bound, null))
    requires forall k :: k in doc ==> k.cache == old(k.cache)
    requires forall c: Cache :: old(allocated(c)) ==> c.result == old(c.result)
    ensures Sound(doc, names, run, bound, cache) && Held(doc, m, dir, base, cache, elem, false)
  {
    hide Above, Document;
    forall k, x | k in doc && x in k.cache ensures k.cache[x] != cache {
      assert old(allocated(k.cache[x]));
    }
  }

  /** An old result of this run and name is the answer. */
  lemma OldResult(doc: set<Node>, names: Names, run: int, bound: nat, m: Matcher, dir: Dir, base: bool, cache: Cache, elem: Node)
    requires Document(doc) && elem in doc && Sound(doc, names, run, bound, cache)
    requires Held(doc, m, dir, base, cache, elem, false)
    requires dir in elem.cache && elem.cache[dir].run == run && elem.cache[dir].done == cache.done < bound
    requires cache.done in names && names[cache.done] == Combinator(dir, false, base, cache.done, m)
    ensures elem.cache[dir].result == True <==> Above(doc, m, dir, base, elem)
  {
    hide Above, Document;
  }

  /** When the walk is over, the shared result is right for all nodes passed. */
  lemma Filled(doc: set<Node>, names: Names, run: int, bound: nat, cache: Cache, elem: Node?)
    requires Document(doc) && Sound(doc, names, run, bound, cache) && (elem != null ==> elem in doc)
    requires cache.done in names && names[cache.done].Combinator? && !names[cache.done].first
    requires var m := names[cache.done];
             (Held(doc, m.inner, m.dir, m.base, cache, elem, false) || Held(doc, m.inner, m.dir, m.base, cache, elem, true))
             && (cache.result == True <==> Above(doc, m.inner, m.dir, m.base, elem))
    ensures Sound(doc, names, run, bound, null)
  {
    hide Above, Document;
  }

  lemma SoundBelow(doc: set<Node>, names: Names, run: int, bound: nat, cache: Cache)
    requires Document(doc) && Sound(doc, names, run, bound, cache) && cache.done <= bound
    ensures Sound(doc, names, run, cache.done, null)
  {
    hide Right;
  }

  twostate lemma SoundAfter(doc: set<Node>, new names: Names, new run: int, new bound: nat, new cache: Cache)
    requires old(allocated(names)) && old(allocated(cache))
    requires Document(doc) && old(Sound(doc, names, run, bound, cache)) && cache.done <= bound
    requires Sound(doc, names, run, cache.done, null) && Replaced(doc, cache.done)
    requires forall c: Cache :: old(allocated(c)) ==> c.result == old(c.result)
    ensures Sound(doc, names, run, bound, cache)
  {
    hide Above;
  }

  /** The result of the cache being filled does not matter. */
  twostate lemma StillSound(doc: set<Node>, new names: Names, new run: int, new bound: nat, new cache: Cache)
    requires old(allocated(names)) && old(allocated(cache))
    requires Document(doc) && old(Sound(doc, names, run, bound, cache))
    requires forall k :: k in doc ==> k.cache == old(k.cache)
    requires forall c: Cache :: old(allocated(c)) && c != cache ==> c.result == old(c.result)
    ensures Sound(doc, names, run, bound, cache)
  {
    hide Above, Document;
  }

  twostate lemma HeldAfter(doc: set<Node>, new m: Matcher, new dir: Dir, new base: bool, new cache: Cache, new elem: Node, new bound: nat)
    requires old(allocated(m)) && old(allocated(cache)) && old(allocated(elem))
    requires Document(doc) && elem in doc && old(Held(doc, m, dir, base, cache, elem, true))
    requires Replaced(doc, bound) && bound <= cache.done
    ensures Held(doc, m, dir, base, cache, elem, true)
  {
    hide Above, Document;
  }

  /** `uniqueCache[dir] = newCache` */
  twostate lemma Laid(doc: set<Node>, new names: Names, new run: int, new m: Matcher, new dir: Dir, new base: bool,
                      new cache: Cache, new elem: Node, new bound: nat)
    requires old(allocated(m)) && old(allocated(cache)) && old(allocated(elem)) && old(allocated(names))
    requires Document(doc) && elem in doc && old(Held(doc, m, dir, base, cache, elem, false)) && Eligible(elem, dir, base)
    requires old(Sound(doc, names, run, bound, cache))
    requires elem.cache == old(elem.cache)[dir := cache]
    requires forall k :: k in doc && k != elem ==> k.cache == old(k.cache)
    requires forall c: Cache :: old(allocated(c)) ==> c.result == old(c.result)
    ensures Held(doc, m, dir, base, cache, elem, true) && Sound(doc, names, run, bound, cache)
  {
    hide Above, Document;
  }

  lemma Hit(doc: set<Node>, m: Matcher, dir: Dir, base: bool, elem: Node)
    requires Document(doc) && elem in doc && Eligible(elem, dir, base) && Matches(doc, m, elem)
    ensures Above(doc, m, dir, base, elem)
  {
    hide Matches;
  }

  lemma NoneAbove(doc: set<Node>, m: Matcher, dir: Dir, base: bool)
    requires Document(doc)
    ensures !Above(doc, m, dir, base, null)
  {}

  /** A node without a match is passed. */
  lemma Passed(doc: set<Node>, m: Matcher, dir: Dir, base: bool, cache: Cache, elem: Node, at: bool)
    requires Document(doc) && elem in doc && !(Eligible(elem, dir, base) && Matches(doc, m, elem))
    requires Held(doc, m, dir, base, cache, elem, at)
    ensures Above(doc, m, dir, base, elem) == Above(doc, m, dir, base, Step(elem, dir))
    ensures Held(doc, m, dir, base, cache, Step(elem, dir), false)
  {
    hide Matches;
  }

  class Run {
    const doc: set<Node>
    const dirruns: int
    const xml: bool
    ghost const names: Names

    constructor (doc: set<Node>, dirruns: int, xml: bool, ghost names: Names)
      ensures this.doc == doc && this.dirruns == dirruns && this.xml == xml && this.names == names
    {
      this.doc, this.dirruns, this.xml, this.names := doc, dirruns, xml, names;
    }

    method Match(m: Matcher, n: Node, ghost bound: nat) returns (a: Answer)
      requires Document(doc) && n in doc && Registered(m, names, bound) && Sound(doc, names, dirruns, bound, null)
      modifies doc
      ensures (a == True) <==> Matches(doc, m, n)
      ensures Sound(doc, names, dirruns, bound, null) && Replaced(doc, bound)
      decreases m, 0
    {
      match m
      case Simple(accepted) => a := if n in accepted then True else False;
      case All(ms) => a := MatchAll(ms, n, bound);
      case Combinator(dir, first, base, done, inner) =>
        if first {
          RegisteredBelow(inner, names, done, bound);
          a := MatchNearest(dir, base, inner, n, bound);
        } else if xml {
          RegisteredBelow(inner, names, done, bound);
          a := MatchXml(dir, base, inner, n, bound);
        } else {
          a := MatchAbove(dir, base, done, inner, n, bound);
        }
    }

    method MatchAll(ms: seq<Matcher>, n: Node, ghost bound: nat) returns (a: Answer)
      requires Document(doc) && n in doc && Sound(doc, names, dirruns, bound, null)
      requires forall i :: 0 <= i < |ms| ==> Registered(ms[i], names, bound)
      modifies doc
      ensures (a == True) <==> forall i :: 0 <= i < |ms| ==> Matches(doc, ms[i], n)
      ensures Sound(doc, names, dirruns, bound, null) && Replaced(doc, bound)
      decreases ms
    {
      var i := |ms|;
      while i > 0
        invariant 0 <= i <= |ms|
        invariant forall k :: i <= k < |ms| ==> Matches(doc, ms[k], n)
        invariant Sound(doc, names, dirruns, bound, null) && Replaced(doc, bound)
      {
        i := i - 1;
        var b := Match(ms[i], n, bound);
        if b != True { return False; }
      }
      return True;
    }

    /** Check against the closest eligible node only. */
    method MatchNearest(dir: Dir, base: bool, inner: Matcher, n: Node, ghost bound: nat) returns (a: Answer)
      requires Document(doc) && n in doc && Registered(inner, names, bound) && Sound(doc, names, dirruns, bound, null)
      modifies doc
      ensures (a == True) <==> Nearest(doc, inner, dir, base, Step(n, dir))
      ensures Sound(doc, names, dirruns, bound, null) && Replaced(doc, bound)
      decreases inner, 2
    {
      var elem := Step(n, dir);
      while elem != null
        invariant elem != null ==> elem in doc
        invariant Nearest(doc, inner, dir, base, elem) == Nearest(doc, inner, dir, base, Step(n, dir))
        invariant Sound(doc, names, dirruns, bound, null) && Replaced(doc, bound)
        decreases if elem == null then 0 else elem.order + 1
      {
        if Eligible(elem, dir, base) {
          a := Match(inner, elem, bound);
          return;
        }
        elem := Step(elem, dir);
      }
      return Undefined;
    }

    /** XML nodes carry no cache. */
    method MatchXml(dir: Dir, base: bool, inner: Matcher, n: Node, ghost bound: nat) returns (a: Answer)
      requires Document(doc) && n in doc && Registered(inner, names, bound) && Sound(doc, names, dirruns, bound, null)
      modifies doc
      ensures (a == True) <==> Above(doc, inner, dir, base, Step(n, dir))
      ensures Sound(doc, names, dirruns, bound, null) && Replaced(doc, bound)
      decreases inner, 1
    {
      var elem := Step(n, dir);
      while elem != null
        invariant elem != null ==> elem in doc
        invariant Above(doc, inner, dir, base, elem) == Above(doc, inner, dir, base, Step(n, dir))
        invariant Sound(doc, names, dirruns, bound, null) && Replaced(doc, bound)
        decreases if elem == null then 0 else elem.order + 1
      {
        if Eligible(elem, dir, base) {
          a := Match(inner, elem, bound);
          if a == True { return; }
        }
        elem := Step(elem, dir);
      }
      return Undefined;
    }

    /** Check against all eligible nodes, with one cache array for those passed. */
    method MatchAbove(dir: Dir, base: bool, done: nat, inner: Matcher, n: Node, ghost bound: nat) returns (a: Answer)
      requires Document(doc) && n in doc && Sound(doc, names, dirruns, bound, null)
      requires Registered(Combinator(dir, false, base, done, inner), names, bound)
      modifies doc
      ensures (a == True) <==> Above(doc, inner, dir, base, Step(n, dir))
      ensures Sound(doc, names, dirruns, bound, null) && Replaced(doc, bound)
      decreases inner, 2
    {
      hide Matches, Registered, Above, Sound, Held;
      OwnName(dir, base, done, inner, names, bound);
      var elem := Step(n, dir);
      var newCache := NewCache(done, dir, base, inner, elem, bound);
      while elem != null
        invariant elem != null ==> elem in doc
        invariant Above(doc, inner, dir, base, elem) == Above(doc, inner, dir, base, Step(n, dir))
        invariant newCache.result != True
        invariant Sound(doc, names, dirruns, bound, newCache) && Replaced(doc, bound)
        invariant Held(doc, inner, dir, base, newCache, elem, false)
        decreases if elem == null then 0 else elem.order + 1
      {
        ghost var at := Eligible(elem, dir, base);
        if Eligible(elem, dir, base) {
          if dir in elem.cache && elem.cache[dir].run == dirruns && elem.cache[dir].done == done {
            a := UseOld(dir, base, inner, elem, newCache, bound);
            return;
          } else {
            a := Fill(dir, base, inner, elem, newCache, bound);
            if a == True {
              Hit(doc, inner, dir, base, elem);
              Filled(doc, names, dirruns, bound, newCache, elem);
              return;
            }
          }
        }
        Passed(doc, inner, dir, base, newCache, elem, at);
        elem := Step(elem, dir);
      }
      NoneAbove(doc, inner, dir, base);
      Filled(doc, names, dirruns, bound, newCache, elem);
      return Undefined;
    }

    /** `newCache = [dirruns, doneName]`, which lies nowhere yet */
    method NewCache(done: nat, ghost dir: Dir, ghost base: bool, ghost inner: Matcher, ghost elem: Node?, ghost bound: nat)
      returns (c: Cache)
      requires Document(doc) && (elem != null ==> elem in doc) && Sound(doc, names, dirruns, bound, null)
      ensures fresh(c) && c.run == dirruns && c.done == done && c.result == Undefined
      ensures Sound(doc, names, dirruns, bound, c) && Held(doc, inner, dir, base, c, elem, false)
    {
      hide Matches, Registered, Above, Sound, Held, Document;
      c := new Cache(dirruns, done);
      NotYet(doc, names, dirruns, bound, inner, dir, base, c, elem);
    }

    /** `return (newCache[2] = oldCache[2])` */
    method UseOld(dir: Dir, base: bool, inner: Matcher, elem: Node, newCache: Cache, ghost bound: nat) returns (a: Answer)
      requires Document(doc) && elem in doc && newCache.done < bound
      requires newCache.done in names && names[newCache.done] == Combinator(dir, false, base, newCache.done, inner)
      requires Sound(doc, names, dirruns, bound, newCache) && Held(doc, inner, dir, base, newCache, elem, false)
      requires dir in elem.cache && elem.cache[dir].run == dirruns && elem.cache[dir].done == newCache.done
      modifies newCache
      ensures (a == True) <==> Above(doc, inner, dir, base, elem)
      ensures Sound(doc, names, dirruns, bound, null)
    {
      hide Matches, Registered, Above, Sound, Held, Document;
      OldResult(doc, names, dirruns, bound, inner, dir, base, newCache, elem);
      newCache.result := elem.cache[dir].result;
      StillSound(doc, names, dirruns, bound, newCache);
      Filled(doc, names, dirruns, bound, newCache, elem);
      return newCache.result;
    }

    /** `uniqueCache[dir] = newCache; newCache[2] = matcher(elem, context, xml)` */
    method Fill(dir: Dir, base: bool, inner: Matcher, elem: Node, newCache: Cache, ghost bound: nat) returns (a: Answer)
      requires Document(doc) && elem in doc && Eligible(elem, dir, base)
      requires newCache.done < bound && Registered(inner, names, newCache.done)
      requires Sound(doc, names, dirruns, bound, newCache) && Held(doc, inner, dir, base, newCache, elem, false)
      modifies doc, newCache
      ensures (a == True) <==> Matches(doc, inner, elem)
      ensures newCache.result == a
      ensures Sound(doc, names, dirruns, bound, newCache) && Held(doc, inner, dir, base, newCache, elem, true)
      ensures Replaced(doc, bound)
      decreases inner, 1
    {
      hide Matches, Registered, Above, Sound, Held, Document;
      elem.cache := elem.cache[dir := newCache];
      Laid(doc, names, dirruns, inner, dir, base, newCache, elem, bound);
      SoundBelow(doc, names, dirruns, bound, newCache);
      label Filling:
      a := Match(inner, elem, newCache.done);
      SoundAfter@Filling(doc, names, dirruns, bound, newCache);
      HeldAfter@Filling(doc, inner, dir, base, newCache, elem, newCache.done);
      label Result:
      newCache.result := a;
      StillSound@Result(doc, names, dirruns, bound, newCache);
    }
  }

  datatype Query = Query(m: Matcher, n: Node)

  /** All the queries of one run: whatever earlier runs left on the elements, every answer
      is the naive one. */
  method MatchEach(doc: set<Node>, dirruns: int, xml: bool, queries: seq<Query>, ghost names: Names, ghost bound: nat)
    returns (answers: seq<Answer>)
    requires Document(doc)
    requires forall n, dir :: n in doc && dir in n.cache ==> n.cache[dir].run != dirruns
    requires forall i :: 0 <= i < |queries| ==> queries[i].n in doc && Registered(queries[i].m, names, bound)
    modifies doc
    ensures |answers| == |queries|
    ensures forall i :: 0 <= i < |queries| ==> (answers[i] == True <==> Matches(doc, queries[i].m, queries[i].n))
  {
    hide Matches, Registered;
    var run := new Run(doc, dirruns, xml, names);
    answers := [];
    for k := 0 to |queries|
      invariant |answers| == k && Sound(doc, names, dirruns, bound, null)
      invariant forall i :: 0 <= i < k ==> (answers[i] == True <==> Matches(doc, queries[i].m, queries[i].n))
    {
      var a := run.Match(queries[k].m, queries[k].n, bound);
      answers := answers + [a];
    }
  }
}
