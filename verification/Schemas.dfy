/** The schema closure of an XML document: every schema that its schemaLocation
    attributes lead to, through the imports and includes of the schemas that load. */
module Schemas {
  import opened Rows

  /** An import or include element; a namespace or a location may be missing. */
  datatype Link = Link(ns: Option<string>, loc: Option<string>)

  /** What loading a schema yields: the base of its relative locations and its links. */
  datatype Schema = Schema(base: string, imports: seq<Link>, includes: seq<Link>)

  /** The file system and the network: how paths join and what loads. */
  datatype World = World(join: (string, string) -> string, load: string -> Option<Schema>)

  /** An emitted import element. */
  datatype Import = Import(ns: string, loc: string)

  /** A document: whether it declares the `xsi` prefix, and the tokens of each of
      its distinct schemaLocation attributes. */
  datatype Document = Document(xsi: bool, locations: seq<seq<string>>)

  datatype Outcome = Closure(imports: seq<Import>) | ValueError | TypeError

  /******* Locations *******/

  predicate Absolute(loc: string) {
    "http://" <= loc || "https://" <= loc || "/" <= loc
  }

  function Resolve(w: World, base: Option<string>, loc: string): string {
    if base.Some? && base.value != "" && !Absolute(loc) then w.join(base.value, loc) else loc
  }

  predicate Located(l: Link) { l.loc.Some? && l.loc.value != "" }

  /** Namespace and location tokens pair up; an odd last token is dropped. */
  function Pairs(tokens: seq<string>): seq<Import> {
    if |tokens| < 2 then [] else [Import(tokens[0], tokens[1])] + Pairs(tokens[2..])
  }

  function AllPairs(locations: seq<seq<string>>): seq<Import> {
    if locations == [] then []
    else AllPairs(locations[..|locations| - 1]) + Pairs(locations[|locations| - 1])
  }

  /** The namespace of pair `k` is token 2k and its location token 2k + 1. */
  lemma {:induction false} PairsAt(tokens: seq<string>, k: nat)
    ensures k < |Pairs(tokens)| <==> 2 * k + 1 < |tokens|
    ensures k < |Pairs(tokens)| ==> Pairs(tokens)[k] == Import(tokens[2 * k], tokens[2 * k + 1])
  {
    if |tokens| >= 2 && k > 0 { PairsAt(tokens[2..], k - 1); }
  }

  /******* Requests *******/

  /** A location to visit, the namespace it is asked for under, and the base it is relative to. */
  datatype Request = Request(ns: Option<string>, loc: string, at: Option<string>)

  function Key(w: World, r: Request): string { Resolve(w, r.at, r.loc) }

  /** The requests of one kind of links: imports bring their own namespace, includes inherit one. */
  function LinkRequests(links: seq<Link>, base: string, inherited: Option<string>): seq<Request> {
    if links == [] then []
    else
      var l := links[|links| - 1];
      LinkRequests(links[..|links| - 1], base, inherited)
      + if Located(l) then [Request(if inherited.Some? then inherited else l.ns, l.loc.value, Some(base))] else []
  }

  /** A prefix of the links makes a prefix of the requests. */
  ghost function LinkSuffix(links: seq<Link>, i: nat, base: string, inherited: Option<string>): (rest: seq<Request>)
    requires i <= |links|
    ensures LinkRequests(links, base, inherited) == LinkRequests(links[..i], base, inherited) + rest
  {
    if i == |links| then
      assert links[..i] == links;
      []
    else
      var n := |links| - 1;
      assert links[..n][..i] == links[..i];
      LinkSuffix(links[..n], i, base, inherited) + LinkRequests(links, base, inherited)[|LinkRequests(links[..n], base, inherited)|..]
  }

  lemma {:induction false} LinkNext(links: seq<Link>, i: nat, base: string, inherited: Option<string>)
    requires i < |links|
    ensures var l := links[i];
            LinkRequests(links[..i + 1], base, inherited)
            == LinkRequests(links[..i], base, inherited)
               + if Located(l) then [Request(if inherited.Some? then inherited else l.ns, l.loc.value, Some(base))] else []
  {
    assert links[..i + 1][..i] == links[..i];
  }

  /** What a loaded schema asks for: its imports first, then its includes. */
  function Requests(w: World, key: string, ns: string): seq<Request> {
    match w.load(key)
    case None => []
    case Some(s) => LinkRequests(s.imports, s.base, None) + LinkRequests(s.includes, s.base, Some(ns))
  }

  /** What the document asks for. */
  function Given(pairs: seq<Import>, base: Option<string>): (rs: seq<Request>)
    ensures |rs| == |pairs| && forall k :: 0 <= k < |pairs| ==> rs[k] == Request(Some(pairs[k].ns), pairs[k].loc, base)
  {
    seq(|pairs|, k requires 0 <= k < |pairs| => Request(Some(pairs[k].ns), pairs[k].loc, base))
  }

  /******* The schema graph *******/

  /** Link `l` of the schema at `a` leads to `b`. */
  predicate Leads(w: World, a: string, l: Link, b: string) {
    w.load(a).Some? && Located(l) && Resolve(w, Some(w.load(a).value.base), l.loc.value) == b
  }

  ghost predicate Step(w: World, a: string, b: string) {
    exists l :: Leads(w, a, l, b) && (l in w.load(a).value.imports || l in w.load(a).value.includes)
  }

  /** As Step, but not through an import that names no namespace. */
  ghost predicate NamedStep(w: World, a: string, b: string) {
    exists l :: Leads(w, a, l, b) && ((l.ns.Some? && l in w.load(a).value.imports) || l in w.load(a).value.includes)
  }

  ghost predicate Nameless(w: World, a: string, b: string) {
    exists l :: Leads(w, a, l, b) && l.ns.None? && l in w.load(a).value.imports
  }

  lemma {:induction false} LinkRequested(links: seq<Link>, base: string, inherited: Option<string>, r: Request)
    ensures r in LinkRequests(links, base, inherited)
            <==> r.at == Some(base)
                 && exists l :: l in links && Located(l) && l.loc.value == r.loc
                                && r.ns == if inherited.Some? then inherited else l.ns
  {
    if links != [] {
      var n := |links| - 1;
      LinkRequested(links[..n], base, inherited, r);
      assert links == links[..n] + [links[n]];
    }
  }

  /** The requests of a schema are the steps of the graph out of it. */
  lemma {:induction false} RequestSteps(w: World, a: string, ns: string, r: Request)
    requires r in Requests(w, a, ns)
    ensures Step(w, a, Key(w, r))
    ensures if r.ns.Some? then NamedStep(w, a, Key(w, r)) else Nameless(w, a, Key(w, r))
  {
    var s := w.load(a).value;
    LinkRequested(s.imports, s.base, None, r);
    LinkRequested(s.includes, s.base, Some(ns), r);
    if r in LinkRequests(s.imports, s.base, None) {
      var l :| l in s.imports && Located(l) && l.loc.value == r.loc && r.ns == l.ns;
      assert Leads(w, a, l, Key(w, r));
    } else {
      var l :| l in s.includes && Located(l) && l.loc.value == r.loc;
      assert Leads(w, a, l, Key(w, r));
    }
  }

  lemma {:induction false} StepRequested(w: World, a: string, ns: string, b: string) returns (r: Request)
    requires Step(w, a, b)
    ensures r in Requests(w, a, ns) && Key(w, r) == b
  {
    var l :| Leads(w, a, l, b) && (l in w.load(a).value.imports || l in w.load(a).value.includes);
    var s := w.load(a).value;
    if l in s.imports {
      r := Request(l.ns, l.loc.value, Some(s.base));
      LinkRequested(s.imports, s.base, None, r);
    } else {
      r := Request(Some(ns), l.loc.value, Some(s.base));
      LinkRequested(s.includes, s.base, Some(ns), r);
    }
  }

  ghost predicate Asked(w: World, rs: seq<Request>, a: string) {
    exists r :: r in rs && Key(w, r) == a
  }

  /** Path `p` leads from the requests to its last location and meets no location in `before`. */
  ghost predicate Path(w: World, rs: seq<Request>, before: set<string>, p: seq<string>) {
    && p != [] && Asked(w, rs, p[0])
    && (forall k :: 0 <= k < |p| ==> p[k] !in before)
    && (forall k :: 0 < k < |p| ==> Step(w, p[k - 1], p[k]))
  }

  ghost predicate NamedPath(w: World, rs: seq<Request>, before: set<string>, p: seq<string>) {
    Path(w, rs, before, p) && forall k :: 0 < k < |p| ==> NamedStep(w, p[k - 1], p[k])
  }

  ghost predicate Reached(w: World, rs: seq<Request>, before: set<string>, a: string) {
    exists p :: Path(w, rs, before, p) && p[|p| - 1] == a
  }

  /** Reached without an import that names no namespace. */
  ghost predicate NamedReached(w: World, rs: seq<Request>, before: set<string>, a: string) {
    exists p :: NamedPath(w, rs, before, p) && p[|p| - 1] == a
  }

  lemma {:induction false} PathStep(w: World, rs: seq<Request>, before: set<string>, p: seq<string>, b: string)
    requires NamedPath(w, rs, before, p) && b !in before
    requires Step(w, p[|p| - 1], b) && NamedStep(w, p[|p| - 1], b)
    ensures NamedPath(w, rs, before, p + [b])
  {
    var q := p + [b];
    forall k | 0 < k < |q| ensures Step(w, q[k - 1], q[k]) {
      if k < |p| { assert Step(w, p[k - 1], p[k]); }
    }
    forall k | 0 < k < |q| ensures NamedStep(w, q[k - 1], q[k]) {
      if k < |p| { assert NamedStep(w, p[k - 1], p[k]); }
    }
  }

  /******* The walk *******/

  /** An emitted import element and the location it made visited. */
  datatype Entry = Entry(key: string, element: Import)

  /** The shared visited set, what is emitted, and the nameless import that stopped the walk. */
  datatype State = State(visited: set<string>, entries: seq<Entry>, bad: Option<string>)

  function Elements(es: seq<Entry>): seq<Import> {
    seq(|es|, k requires 0 <= k < |es| => es[k].element)
  }

  ghost predicate AllIn(w: World, universe: set<string>, rs: seq<Request>) {
    forall r :: r in rs ==> Key(w, r) in universe
  }

  /** Nothing in `universe` leads out of it. */
  ghost predicate Finite(w: World, universe: set<string>) {
    forall a, ns :: a in universe ==> AllIn(w, universe, Requests(w, a, ns))
  }

  /** A visit of one location, depth first. */
  ghost function Visit(w: World, universe: set<string>, st: State, r: Request): (st': State)
    requires Finite(w, universe) && Key(w, r) in universe
    ensures st.visited <= st'.visited
    decreases universe - st.visited, 0
  {
    var key := Key(w, r);
    if st.bad.Some? || key in st.visited then st
    else
      var seen := st.(visited := st.visited + {key});
      if r.ns.None? then seen.(bad := Some(key))
      else
        VisitAll(w, universe, seen.(entries := seen.entries + [Entry(key, Import(r.ns.value, r.loc))]),
                 Requests(w, key, r.ns.value))
  }

  ghost function VisitAll(w: World, universe: set<string>, st: State, rs: seq<Request>): (st': State)
    requires Finite(w, universe) && AllIn(w, universe, rs)
    ensures st.visited <= st'.visited
    decreases universe - st.visited, 1 + |rs|
  {
    if rs == [] then st
    else Visit(w, universe, VisitAll(w, universe, st, rs[..|rs| - 1]), rs[|rs| - 1])
  }

  lemma {:induction false} VisitAllNext(w: World, universe: set<string>, st: State, rs: seq<Request>, r: Request)
    requires Finite(w, universe) && AllIn(w, universe, rs) && AllIn(w, universe, rs + [r])
    ensures Key(w, r) in universe
    ensures VisitAll(w, universe, st, rs + [r]) == Visit(w, universe, VisitAll(w, universe, st, rs), r)
  {
    assert (rs + [r])[|rs|] == r && (rs + [r])[..|rs|] == rs;
  }

  lemma {:induction false} VisitAllFailed(w: World, universe: set<string>, st: State, rs: seq<Request>)
    requires Finite(w, universe) && AllIn(w, universe, rs) && st.bad.Some?
    ensures VisitAll(w, universe, st, rs) == st
  {
    if rs != [] { VisitAllFailed(w, universe, st, rs[..|rs| - 1]); }
  }

  lemma {:induction false} VisitAllConcat(w: World, universe: set<string>, st: State, rs: seq<Request>, ts: seq<Request>)
    requires Finite(w, universe) && AllIn(w, universe, rs) && AllIn(w, universe, ts)
    ensures VisitAll(w, universe, st, rs + ts) == VisitAll(w, universe, VisitAll(w, universe, st, rs), ts)
  {
    if ts == [] {
      assert rs + ts == rs;
    } else {
      var n := |ts| - 1;
      VisitAllConcat(w, universe, st, rs, ts[..n]);
      assert (rs + ts)[..|rs + ts| - 1] == rs + ts[..n];
    }
  }

  /******* Nothing too much *******/

  /** Some request among `rs` or of an entry among `es` is `r`. */
  ghost predicate Wanted(w: World, rs: seq<Request>, es: seq<Entry>, r: Request) {
    r in rs || exists j :: 0 <= j < |es| && r in Requests(w, es[j].key, es[j].element.ns)
  }

  /** Entry `e` answers request `r`. */
  predicate Answers(w: World, e: Entry, r: Request) {
    e.key == Key(w, r) && Some(e.element.ns) == r.ns && e.element.loc == r.loc
  }

  ghost predicate Explained(w: World, rs: seq<Request>, es: seq<Entry>, e: Entry) {
    exists r :: Wanted(w, rs, es, r) && Answers(w, e, r)
  }

  /** Each visited location that is new has one entry, and each entry answers a
      request of the document or of an earlier entry. */
  ghost predicate Sound(w: World, rs: seq<Request>, before: set<string>, st: State) {
    && (forall k :: 0 <= k < |st.entries| ==> st.entries[k].key !in before)
    && (forall j, k :: 0 <= j < k < |st.entries| ==> st.entries[j].key != st.entries[k].key)
    && (forall k :: 0 <= k < |st.entries| ==> Explained(w, rs, st.entries[..k], st.entries[k]))
    && (forall a :: a in st.visited
          <==> a in before || Keyed(st.entries, a) || Some(a) == st.bad)
    && (st.bad.Some? ==>
          && st.bad.value !in before
          && (forall k :: 0 <= k < |st.entries| ==> st.entries[k].key != st.bad.value)
          && exists r :: Wanted(w, rs, st.entries, r) && r.ns.None? && Key(w, r) == st.bad.value)
  }

  lemma {:induction false} WantedMore(w: World, rs: seq<Request>, es: seq<Entry>, fs: seq<Entry>, r: Request)
    requires es <= fs && Wanted(w, rs, es, r)
    ensures Wanted(w, rs, fs, r)
  {
    if r !in rs {
      var j :| 0 <= j < |es| && r in Requests(w, es[j].key, es[j].element.ns);
      assert fs[j] == es[j];
    }
  }

  lemma {:induction false} ExplainedMore(w: World, rs: seq<Request>, es: seq<Entry>, e: Entry, r: Request)
    requires forall k :: 0 <= k < |es| ==> Explained(w, rs, es[..k], es[k])
    requires Wanted(w, rs, es, r) && Answers(w, e, r)
    ensures var fs := es + [e]; forall k :: 0 <= k < |fs| ==> Explained(w, rs, fs[..k], fs[k])
  {
    var fs := es + [e];
    forall k | 0 <= k < |fs| ensures Explained(w, rs, fs[..k], fs[k]) {
      if k < |es| { assert fs[..k] == es[..k]; } else { assert fs[..k] == es; }
    }
  }

  predicate Keyed(es: seq<Entry>, a: string) { exists k :: 0 <= k < |es| && es[k].key == a }

  lemma {:induction false} KeyedMore(es: seq<Entry>, e: Entry, a: string)
    ensures Keyed(es + [e], a) <==> Keyed(es, a) || e.key == a
  {
    var fs := es + [e];
    if k :| 0 <= k < |es| && es[k].key == a { assert fs[k].key == a; }
    assert fs[|es|] == e;
  }

  lemma {:induction false} SoundEntry(w: World, rs: seq<Request>, before: set<string>, st: State, r: Request)
    requires Sound(w, rs, before, st) && st.bad.None? && Wanted(w, rs, st.entries, r)
    requires r.ns.Some? && Key(w, r) !in st.visited
    ensures Sound(w, rs, before, State(st.visited + {Key(w, r)},
                                       st.entries + [Entry(Key(w, r), Import(r.ns.value, r.loc))], None))
  {
    var e := Entry(Key(w, r), Import(r.ns.value, r.loc));
    assert Answers(w, e, r);
    ExplainedMore(w, rs, st.entries, e, r);
    forall a { KeyedMore(st.entries, e, a); }
    assert forall a :: Keyed(st.entries, a) ==> a in st.visited;
  }

  lemma {:induction false} SoundVisit(w: World, universe: set<string>, rs: seq<Request>, before: set<string>,
                                      st: State, r: Request)
    requires Finite(w, universe) && Key(w, r) in universe
    requires Sound(w, rs, before, st) && Wanted(w, rs, st.entries, r)
    ensures Sound(w, rs, before, Visit(w, universe, st, r))
    ensures st.entries <= Visit(w, universe, st, r).entries
    decreases universe - st.visited, 0
  {
    var key := Key(w, r);
    if st.bad.None? && key !in st.visited && r.ns.Some? {
      SoundEntry(w, rs, before, st, r);
      var e := Entry(key, Import(r.ns.value, r.loc));
      var st1 := State(st.visited + {key}, st.entries + [e], None);
      var ts := Requests(w, key, r.ns.value);
      forall t | t in ts ensures Wanted(w, rs, st1.entries, t) {
        assert st1.entries[|st.entries|] == e;
      }
      SoundVisitAll(w, universe, rs, before, st1, ts);
    }
  }

  lemma {:induction false} SoundVisitAll(w: World, universe: set<string>, rs: seq<Request>, before: set<string>,
                                         st: State, ts: seq<Request>)
    requires Finite(w, universe) && AllIn(w, universe, ts)
    requires Sound(w, rs, before, st) && forall t :: t in ts ==> Wanted(w, rs, st.entries, t)
    ensures Sound(w, rs, before, VisitAll(w, universe, st, ts))
    ensures st.entries <= VisitAll(w, universe, st, ts).entries
    decreases universe - st.visited, 1 + |ts|
  {
    if ts != [] {
      var n := |ts| - 1;
      SoundVisitAll(w, universe, rs, before, st, ts[..n]);
      var st1 := VisitAll(w, universe, st, ts[..n]);
      WantedMore(w, rs, st.entries, st1.entries, ts[n]);
      SoundVisit(w, universe, rs, before, st1, ts[n]);
    }
  }

  lemma {:induction false} RequestReached(w: World, rs: seq<Request>, before: set<string>, a: string, ns: string,
                                          r: Request)
    requires NamedReached(w, rs, before, a) && r in Requests(w, a, ns) && Key(w, r) !in before
    ensures Reached(w, rs, before, a)
    ensures if r.ns.Some? then NamedReached(w, rs, before, Key(w, r)) else Nameless(w, a, Key(w, r))
  {
    var p :| NamedPath(w, rs, before, p) && p[|p| - 1] == a;
    RequestSteps(w, a, ns, r);
    if r.ns.Some? {
      var b := Key(w, r);
      PathStep(w, rs, before, p, b);
      assert (p + [b])[|p + [b]| - 1] == b;
    }
  }

  /** Nothing is emitted that the requests do not lead to by named links. */
  lemma {:induction false} EntryReached(w: World, rs: seq<Request>, before: set<string>, st: State, k: nat)
    requires Sound(w, rs, before, st) && k < |st.entries| && (forall r :: r in rs ==> r.ns.Some?)
    ensures NamedReached(w, rs, before, st.entries[k].key)
  {
    var es, e := st.entries[..k], st.entries[k];
    assert Explained(w, rs, es, e);
    var r :| Wanted(w, rs, es, r) && Answers(w, e, r);
    if r in rs {
      assert Asked(w, rs, e.key);
      assert NamedPath(w, rs, before, [e.key]);
      assert [e.key][|[e.key]| - 1] == e.key;
    } else {
      var j :| 0 <= j < k && r in Requests(w, es[j].key, es[j].element.ns);
      EntryReached(w, rs, before, st, j);
      RequestReached(w, rs, before, es[j].key, es[j].element.ns, r);
    }
  }

  lemma {:induction false} BadReached(w: World, rs: seq<Request>, before: set<string>, st: State) returns (a: string)
    requires Sound(w, rs, before, st) && st.bad.Some? && (forall r :: r in rs ==> r.ns.Some?)
    ensures Reached(w, rs, before, a) && Nameless(w, a, st.bad.value)
  {
    var r :| Wanted(w, rs, st.entries, r) && r.ns.None? && Key(w, r) == st.bad.value;
    var j :| 0 <= j < |st.entries| && r in Requests(w, st.entries[j].key, st.entries[j].element.ns);
    a := st.entries[j].key;
    EntryReached(w, rs, before, st, j);
    RequestReached(w, rs, before, a, st.entries[j].element.ns, r);
  }

  /******* Nothing missed *******/

  /** Every location that entries from number `n` on ask for is visited. */
  ghost predicate ClosedFrom(w: World, st: State, n: nat) {
    forall k :: n <= k < |st.entries| ==>
      AllIn(w, st.visited, Requests(w, st.entries[k].key, st.entries[k].element.ns))
  }

  lemma {:induction false} ClosedVisit(w: World, universe: set<string>, st: State, r: Request)
    requires Finite(w, universe) && Key(w, r) in universe
    ensures var st' := Visit(w, universe, st, r);
            st'.bad.None? ==> st.entries <= st'.entries && Key(w, r) in st'.visited && ClosedFrom(w, st', |st.entries|)
    decreases universe - st.visited, 0
  {
    var key := Key(w, r);
    if st.bad.None? && key !in st.visited && r.ns.Some? {
      var st1 := State(st.visited + {key}, st.entries + [Entry(key, Import(r.ns.value, r.loc))], None);
      ClosedVisitAll(w, universe, st1, Requests(w, key, r.ns.value));
    }
  }

  lemma {:induction false} ClosedVisitAll(w: World, universe: set<string>, st: State, rs: seq<Request>)
    requires Finite(w, universe) && AllIn(w, universe, rs)
    ensures var st' := VisitAll(w, universe, st, rs);
            st'.bad.None? ==> st.entries <= st'.entries && AllIn(w, st'.visited, rs) && ClosedFrom(w, st', |st.entries|)
    decreases universe - st.visited, 1 + |rs|
  {
    if rs != [] {
      var n := |rs| - 1;
      var st1 := VisitAll(w, universe, st, rs[..n]);
      ClosedVisitAll(w, universe, st, rs[..n]);
      ClosedVisit(w, universe, st1, rs[n]);
      var st2 := Visit(w, universe, st1, rs[n]);
      if st2.bad.None? {
        forall k | |st.entries| <= k < |st1.entries|
          ensures AllIn(w, st2.visited, Requests(w, st2.entries[k].key, st2.entries[k].element.ns))
        {
          assert st2.entries[k] == st1.entries[k];
        }
      }
    }
  }

  /** A closed state holds all that the requests lead to. */
  lemma {:induction false} PathVisited(w: World, rs: seq<Request>, before: set<string>, st: State, p: seq<string>)
    requires Sound(w, rs, before, st) && st.bad.None? && AllIn(w, st.visited, rs) && ClosedFrom(w, st, 0)
    requires Path(w, rs, before, p)
    ensures p[|p| - 1] in st.visited
  {
    var n := |p| - 1;
    if n > 0 {
      PathVisited(w, rs, before, st, p[..n]);
      assert p[..n][n - 1] == p[n - 1] && p[n - 1] !in before;
      var k :| 0 <= k < |st.entries| && st.entries[k].key == p[n - 1];
      assert Step(w, p[n - 1], p[n]);
      var r := StepRequested(w, p[n - 1], st.entries[k].element.ns, p[n]);
      assert AllIn(w, st.visited, Requests(w, st.entries[k].key, st.entries[k].element.ns));
    }
  }

  /******* The closure *******/

  /** What a whole call does to the shared state. */
  ghost function Closed(w: World, universe: set<string>, before: set<string>, pairs: seq<Import>,
                        base: Option<string>): State
    requires Finite(w, universe) && AllIn(w, universe, Given(pairs, base))
  {
    VisitAll(w, universe, State(before, [], None), Given(pairs, base))
  }

  lemma {:induction false} ClosureSound(w: World, universe: set<string>, before: set<string>,
                                        pairs: seq<Import>, base: Option<string>)
    requires Finite(w, universe) && AllIn(w, universe, Given(pairs, base))
    ensures Sound(w, Given(pairs, base), before, Closed(w, universe, before, pairs, base))
  {
    var rs := Given(pairs, base);
    SoundVisitAll(w, universe, rs, before, State(before, [], None), rs);
  }

  lemma {:induction false} ReachedIsVisited(w: World, rs: seq<Request>, before: set<string>, st: State, a: string)
    requires Sound(w, rs, before, st) && st.bad.None? && AllIn(w, st.visited, rs) && ClosedFrom(w, st, 0)
    requires Reached(w, rs, before, a)
    ensures a in st.visited && a !in before
  {
    var p :| Path(w, rs, before, p) && p[|p| - 1] == a;
    PathVisited(w, rs, before, st, p);
  }

  lemma {:induction false} NamedIsReached(w: World, rs: seq<Request>, before: set<string>, a: string)
    requires NamedReached(w, rs, before, a)
    ensures Reached(w, rs, before, a)
  {
    var p :| NamedPath(w, rs, before, p) && p[|p| - 1] == a;
  }

  lemma {:induction false} VisitedIsReached(w: World, rs: seq<Request>, before: set<string>, st: State, a: string)
    requires Sound(w, rs, before, st) && st.bad.None? && AllIn(w, st.visited, rs) && ClosedFrom(w, st, 0)
    requires forall r :: r in rs ==> r.ns.Some?
    ensures a in st.visited <==> a in before || Reached(w, rs, before, a)
    ensures Reached(w, rs, before, a) <==> NamedReached(w, rs, before, a)
  {
    if Reached(w, rs, before, a) { ReachedIsVisited(w, rs, before, st, a); }
    if a in st.visited && a !in before {
      var k :| 0 <= k < |st.entries| && st.entries[k].key == a;
      EntryReached(w, rs, before, st, k);
    }
    if NamedReached(w, rs, before, a) { NamedIsReached(w, rs, before, a); }
  }

  /** When the walk succeeds the visited set grows by exactly the locations the
      document leads to through schemas that load, each reached by named links. */
  lemma {:induction false} ClosureIsReach(w: World, universe: set<string>, before: set<string>,
                                          pairs: seq<Import>, base: Option<string>, a: string)
    requires Finite(w, universe) && AllIn(w, universe, Given(pairs, base))
    requires Closed(w, universe, before, pairs, base).bad.None?
    ensures a in Closed(w, universe, before, pairs, base).visited
            <==> a in before || Reached(w, Given(pairs, base), before, a)
    ensures Reached(w, Given(pairs, base), before, a) <==> NamedReached(w, Given(pairs, base), before, a)
  {
    ClosureSound(w, universe, before, pairs, base);
    ClosedVisitAll(w, universe, State(before, [], None), Given(pairs, base));
    VisitedIsReached(w, Given(pairs, base), before, Closed(w, universe, before, pairs, base), a);
  }

  /** Every newly visited location has exactly one import element, and it carries
      the namespace and the location text of a request that leads there. */
  lemma {:induction false} OneImportEach(w: World, universe: set<string>, before: set<string>,
                                         pairs: seq<Import>, base: Option<string>, a: string) returns (k: nat)
    requires Finite(w, universe) && AllIn(w, universe, Given(pairs, base))
    requires Closed(w, universe, before, pairs, base).bad.None?
    requires a !in before && a in Closed(w, universe, before, pairs, base).visited
    ensures var es := Closed(w, universe, before, pairs, base).entries;
            && k < |es| && es[k].key == a && (forall j :: 0 <= j < |es| && es[j].key == a ==> j == k)
            && Explained(w, Given(pairs, base), es[..k], es[k])
  {
    ClosureSound(w, universe, before, pairs, base);
    var es := Closed(w, universe, before, pairs, base).entries;
    k :| 0 <= k < |es| && es[k].key == a;
  }

  /** Schema `e` has the link `l`, and `f` stands for it: an import under its own namespace, an
      include under that of the schema, with the location as it is written there. */
  ghost predicate LinkedBy(w: World, e: Entry, l: Link, f: Entry) {
    && w.load(e.key).Some? && l.loc == Some(f.element.loc) && f.element.loc != ""
    && f.key == Resolve(w, Some(w.load(e.key).value.base), f.element.loc)
    && ((l in w.load(e.key).value.imports && l.ns == Some(f.element.ns))
        || (l in w.load(e.key).value.includes && f.element.ns == e.element.ns))
  }

  /** Each import element is a pair of the document, or stands for a link of the schema of an
      earlier element. */
  lemma {:induction false} ElementFrom(w: World, universe: set<string>, before: set<string>,
                                       pairs: seq<Import>, base: Option<string>, k: nat)
    requires Finite(w, universe) && AllIn(w, universe, Given(pairs, base))
    requires k < |Closed(w, universe, before, pairs, base).entries|
    ensures var es := Closed(w, universe, before, pairs, base).entries;
            || (exists p :: 0 <= p < |pairs| && es[k].element == pairs[p] && es[k].key == Resolve(w, base, pairs[p].loc))
            || (exists j, l :: 0 <= j < k && LinkedBy(w, es[j], l, es[k]))
  {
    ClosureSound(w, universe, before, pairs, base);
    var es, rs := Closed(w, universe, before, pairs, base).entries, Given(pairs, base);
    assert Explained(w, rs, es[..k], es[k]);
    var r :| Wanted(w, rs, es[..k], r) && Answers(w, es[k], r);
    if r in rs {
      var p :| 0 <= p < |rs| && rs[p] == r;
      assert es[k].element == pairs[p];
    } else {
      var j :| 0 <= j < k && r in Requests(w, es[j].key, es[j].element.ns);
      var l := RequestLink(w, es[j], r, es[k]);
    }
  }

  lemma {:induction false} RequestLink(w: World, e: Entry, r: Request, f: Entry) returns (l: Link)
    requires r in Requests(w, e.key, e.element.ns) && Answers(w, f, r)
    ensures LinkedBy(w, e, l, f)
  {
    var s := w.load(e.key).value;
    LinkRequested(s.imports, s.base, None, r);
    LinkRequested(s.includes, s.base, Some(e.element.ns), r);
    if r in LinkRequests(s.imports, s.base, None) {
      l :| l in s.imports && Located(l) && l.loc.value == r.loc && r.ns == l.ns;
    } else {
      l :| l in s.includes && Located(l) && l.loc.value == r.loc && r.ns == Some(e.element.ns);
    }
  }

  /** When it fails, a schema the document leads to imports an unvisited location
      without a namespace. */
  lemma {:induction false} FailureIsNameless(w: World, universe: set<string>, before: set<string>,
                                             pairs: seq<Import>, base: Option<string>) returns (a: string)
    requires Finite(w, universe) && AllIn(w, universe, Given(pairs, base))
    requires Closed(w, universe, before, pairs, base).bad.Some?
    ensures var bad := Closed(w, universe, before, pairs, base).bad.value;
            Reached(w, Given(pairs, base), before, a) && Nameless(w, a, bad) && bad !in before
  {
    ClosureSound(w, universe, before, pairs, base);
    a := BadReached(w, Given(pairs, base), before, Closed(w, universe, before, pairs, base));
  }

  /******* A nameless import *******/

  /** Schema "/a" imports "/b" without a namespace; "/b" loads and links to nothing. */
  const NAMELESS := World((base, loc) => loc,
                          loc => if loc == "/a" then Some(Schema("/", [Link(None, Some("/b"))], []))
                                 else if loc == "/b" then Some(Schema("/", [], [])) else None)

  lemma {:induction false} NamelessRequests(key: string, ns: string)
    ensures Requests(NAMELESS, key, ns) == if key == "/a" then [Request(None, "/b", Some("/"))] else []
  {
    if key == "/a" {
      var l := Link(None, Some("/b"));
      assert [l][..0] == [];
      assert LinkRequests([l], "/", None) == LinkRequests([], "/", None) + [Request(None, "/b", Some("/"))];
    }
  }

  lemma {:induction false} VisitOne(w: World, universe: set<string>, st: State, r: Request)
    requires Finite(w, universe) && AllIn(w, universe, [r])
    ensures VisitAll(w, universe, st, [r]) == Visit(w, universe, st, r)
  {
    assert [r][..0] == [];
  }

  lemma {:induction false} VisitTwo(w: World, universe: set<string>, st: State, rs: seq<Request>)
    requires Finite(w, universe) && AllIn(w, universe, rs) && |rs| == 2
    ensures VisitAll(w, universe, st, rs) == Visit(w, universe, Visit(w, universe, st, rs[0]), rs[1])
  {
    assert rs[..1] == [rs[0]];
    VisitOne(w, universe, st, rs[0]);
  }

  /** The walk over two locations, "/a" first: it fails. */
  lemma {:induction false} ImportFirst(w: World, u: set<string>, a: Import, b: Import)
    requires w == NAMELESS && u == {"/a", "/b"} && a == Import("n", "/a") && b == Import("n", "/b") && Finite(w, u)
    ensures Closed(w, u, {}, [a, b], None) == State({"/a", "/b"}, [Entry("/a", a)], Some("/b"))
  {
    var nb := Request(None, "/b", Some("/"));
    VisitTwo(w, u, State({}, [], None), Given([a, b], None));
    NamelessRequests("/a", "n");
    VisitOne(w, u, State({"/a"}, [Entry("/a", a)], None), nb);
    assert {"/a"} + {"/b"} == {"/a", "/b"};
  }

  /** "/b" first: it succeeds. */
  lemma {:induction false} ImportLast(w: World, u: set<string>, a: Import, b: Import)
    requires w == NAMELESS && u == {"/a", "/b"} && a == Import("n", "/a") && b == Import("n", "/b") && Finite(w, u)
    ensures Closed(w, u, {}, [b, a], None) == State({"/a", "/b"}, [Entry("/b", b), Entry("/a", a)], None)
  {
    var nb := Request(None, "/b", Some("/"));
    VisitTwo(w, u, State({}, [], None), Given([b, a], None));
    NamelessRequests("/a", "n");
    NamelessRequests("/b", "n");
    assert {"/b"} + {"/a"} == {"/a", "/b"};
    var st1, st2 := State({"/b"}, [Entry("/b", b)], None), State({"/a", "/b"}, [Entry("/b", b), Entry("/a", a)], None);
    assert Visit(w, u, State({}, [], None), Given([b, a], None)[0]) == st1;
    VisitOne(w, u, st2, nb);
    assert [Entry("/b", b)] + [Entry("/a", a)] == st2.entries;
    assert Visit(w, u, st1, Given([b, a], None)[1]) == st2;
  }

  /** A nameless import makes the outcome depend on the order of the locations: of
      the same two, the call fails when "/a" comes first and succeeds, with both
      visited, when "/b" does. */
  lemma {:induction false} OrderDecides()
    ensures Finite(NAMELESS, {"/a", "/b"})
    ensures Closed(NAMELESS, {"/a", "/b"}, {}, [Import("n", "/a"), Import("n", "/b")], None).bad == Some("/b")
    ensures Closed(NAMELESS, {"/a", "/b"}, {}, [Import("n", "/b"), Import("n", "/a")], None).bad == None
  {
    var w, u := NAMELESS, {"/a", "/b"};
    forall a, ns ensures Requests(w, a, ns) == if a == "/a" then [Request(None, "/b", Some("/"))] else [] {
      NamelessRequests(a, ns);
    }
    ImportFirst(w, u, Import("n", "/a"), Import("n", "/b"));
    ImportLast(w, u, Import("n", "/a"), Import("n", "/b"));
  }

  /******* What a schema asks for first *******/

  lemma {:induction false} OneLink(l: Link, base: string, inherited: Option<string>)
    requires l.loc.Some? && l.loc.value != ""
    ensures LinkRequests([l], base, inherited)
            == [Request(if inherited.Some? then inherited else l.ns, l.loc.value, Some(base))]
  {
    assert [l][..0] == [] && LinkRequests([], base, inherited) == [];
  }

  lemma {:induction false} VisitLeaf(w: World, u: set<string>, st: State, r: Request, b: string)
    requires Finite(w, u) && b in u && Key(w, r) == b && b !in st.visited && st.bad.None? && r.ns.Some?
    requires w.load(b) == None
    ensures Visit(w, u, st, r) == State(st.visited + {b}, st.entries + [Entry(b, Import(r.ns.value, r.loc))], None)
  {
    assert Requests(w, b, r.ns.value) == [];
  }

  lemma {:induction false} VisitRoot(w: World, u: set<string>, a: string, ns: string, rs: seq<Request>)
    requires Finite(w, u) && a in u && "/" <= a && Requests(w, a, ns) == rs
    ensures AllIn(w, u, rs)
    ensures Visit(w, u, State({}, [], None), Request(Some(ns), a, None))
            == VisitAll(w, u, State({a}, [Entry(a, Import(ns, a))], None), rs)
  {
    assert {} + {a} == {a} && [] + [Entry(a, Import(ns, a))] == [Entry(a, Import(ns, a))];
  }

  /** Imports come before includes: a location that a schema both imports and includes is
      emitted under the namespace of the import. */
  lemma {:induction false} ImportsFirst(w: World, u: set<string>, a: string, b: string, ns: string, base: string,
                                        x: string, y: Option<string>)
    requires Finite(w, u) && a in u && b in u && a != b && "/" <= a && "/" <= b
    requires w.load(a) == Some(Schema(base, [Link(Some(x), Some(b))], [Link(y, Some(b))])) && w.load(b) == None
    ensures Visit(w, u, State({}, [], None), Request(Some(ns), a, None))
            == State({a, b}, [Entry(a, Import(ns, a)), Entry(b, Import(x, b))], None)
  {
    var r1, r2 := Request(Some(x), b, Some(base)), Request(Some(ns), b, Some(base));
    ImportAndInclude(w, a, b, ns, base, x, y);
    VisitRoot(w, u, a, ns, [r1, r2]);
    VisitTwice(w, u, State({a}, [Entry(a, Import(ns, a))], None), r1, r2, b);
    assert {a} + {b} == {a, b};
  }

  lemma {:induction false} ImportAndInclude(w: World, a: string, b: string, ns: string, base: string, x: string,
                                            y: Option<string>)
    requires w.load(a) == Some(Schema(base, [Link(Some(x), Some(b))], [Link(y, Some(b))])) && "/" <= b
    ensures Requests(w, a, ns) == [Request(Some(x), b, Some(base)), Request(Some(ns), b, Some(base))]
    ensures Resolve(w, Some(base), b) == b
  {
    OneLink(Link(Some(x), Some(b)), base, None);
    OneLink(Link(y, Some(b)), base, Some(ns));
  }

  lemma {:induction false} VisitTwice(w: World, u: set<string>, st: State, r: Request, r': Request, b: string)
    requires Finite(w, u) && b in u && Key(w, r) == b && Key(w, r') == b && AllIn(w, u, [r, r'])
    requires b !in st.visited && st.bad.None? && r.ns.Some? && w.load(b) == None
    ensures VisitAll(w, u, st, [r, r'])
            == State(st.visited + {b}, st.entries + [Entry(b, Import(r.ns.value, r.loc))], None)
  {
    VisitTwo(w, u, st, [r, r']);
    VisitLeaf(w, u, st, r, b);
  }

  /** What is included is emitted under the namespace of the schema that includes it. */
  lemma {:induction false} IncludeInherits(w: World, u: set<string>, a: string, b: string, ns: string, base: string,
                                           y: Option<string>)
    requires Finite(w, u) && a in u && b in u && a != b && "/" <= a && "/" <= b
    requires w.load(a) == Some(Schema(base, [], [Link(y, Some(b))])) && w.load(b) == None
    ensures Visit(w, u, State({}, [], None), Request(Some(ns), a, None))
            == State({a, b}, [Entry(a, Import(ns, a)), Entry(b, Import(ns, b))], None)
  {
    var r := Request(Some(ns), b, Some(base));
    IncludeAlone(w, a, b, ns, base, y);
    VisitRoot(w, u, a, ns, [r]);
    VisitOnce(w, u, State({a}, [Entry(a, Import(ns, a))], None), r, b);
    assert {a} + {b} == {a, b};
  }

  lemma {:induction false} IncludeAlone(w: World, a: string, b: string, ns: string, base: string, y: Option<string>)
    requires w.load(a) == Some(Schema(base, [], [Link(y, Some(b))])) && "/" <= b
    ensures Requests(w, a, ns) == [Request(Some(ns), b, Some(base))]
    ensures Resolve(w, Some(base), b) == b
  {
    OneLink(Link(y, Some(b)), base, Some(ns));
  }

  lemma {:induction false} VisitOnce(w: World, u: set<string>, st: State, r: Request, b: string)
    requires Finite(w, u) && b in u && Key(w, r) == b && AllIn(w, u, [r])
    requires b !in st.visited && st.bad.None? && r.ns.Some? && w.load(b) == None
    ensures VisitAll(w, u, st, [r])
            == State(st.visited + {b}, st.entries + [Entry(b, Import(r.ns.value, r.loc))], None)
  {
    VisitOne(w, u, st, r);
    VisitLeaf(w, u, st, r, b);
  }

  /******* The calls *******/

  /** The visited set and the growing schema that the recursive calls share. */
  class Walk {
    const w: World
    ghost const universe: set<string>
    var visited: set<string>
    var imports: seq<Import>
    ghost var state: State

    constructor (w: World, visited: set<string>, ghost universe: set<string>)
      requires Finite(w, universe)
      ensures this.w == w && this.universe == universe && Valid() && state == State(visited, [], None)
    {
      this.w, this.universe, this.visited, this.imports := w, universe, visited, [];
      this.state := State(visited, [], None);
    }

    ghost predicate Valid() reads this {
      Finite(w, universe) && visited == state.visited && imports == Elements(state.entries)
    }

    /** Visits a location and, depth first, what its schema imports and then what it
        includes; fails, with the location visited, on a nameless import. */
    method ProcessSchemaLocation(ns: Option<string>, loc: string, base: Option<string>) returns (ok: bool)
      requires Valid() && state.bad.None? && Resolve(w, base, loc) in universe
      modifies this
      ensures Valid() && state == Visit(w, universe, old(state), Request(ns, loc, base))
      ensures ok <==> state.bad.None?
      decreases universe - visited, 0
    {
      var key := Resolve(w, base, loc);
      if key in visited { return true; }
      visited := visited + {key};
      state := state.(visited := state.visited + {key});
      if ns.None? {
        state := state.(bad := Some(key));
        return false;
      }
      imports := imports + [Import(ns.value, loc)];
      state := state.(entries := state.entries + [Entry(key, Import(ns.value, loc))]);
      var schema := w.load(key);
      if schema.None? { return true; }
      ghost var seen := state;
      ghost var own := LinkRequests(schema.value.imports, schema.value.base, None);
      ghost var shared := LinkRequests(schema.value.includes, schema.value.base, ns);
      assert Requests(w, key, ns.value) == own + shared && AllIn(w, universe, own + shared);
      VisitAllConcat(w, universe, seen, own, shared);
      ok := Follow(schema.value.imports, None, schema.value.base);
      if ok {
        ok := Follow(schema.value.includes, ns, schema.value.base);
      } else {
        VisitAllFailed(w, universe, state, shared);
      }
    }

    /** Visits the links of one loaded schema: its imports under their own
        namespaces, its includes under the one `inherited` from the schema. */
    method Follow(links: seq<Link>, inherited: Option<string>, base: string) returns (ok: bool)
      requires Valid() && state.bad.None? && AllIn(w, universe, LinkRequests(links, base, inherited))
      modifies this
      ensures Valid() && state == VisitAll(w, universe, old(state), LinkRequests(links, base, inherited))
      ensures ok <==> state.bad.None?
      decreases universe - visited, 1
    {
      ok := true;
      for i := 0 to |links|
        invariant Valid() && state.bad.None? && ok && old(visited) <= visited
        invariant AllIn(w, universe, LinkRequests(links[..i], base, inherited))
        invariant state == VisitAll(w, universe, old(state), LinkRequests(links[..i], base, inherited))
      {
        ghost var rest := LinkSuffix(links, i + 1, base, inherited);
        LinkNext(links, i, base, inherited);
        ghost var rs := LinkRequests(links[..i], base, inherited);
        var l := links[i];
        if Located(l) {
          ghost var r := Request(if inherited.Some? then inherited else l.ns, l.loc.value, Some(base));
          assert (rs + [r])[|rs|] == r;
          VisitAllNext(w, universe, old(state), rs, r);
          ok := ProcessSchemaLocation(if inherited.Some? then inherited else l.ns, l.loc.value, Some(base));
          if !ok {
            VisitAllConcat(w, universe, old(state), LinkRequests(links[..i + 1], base, inherited), rest);
            VisitAllFailed(w, universe, state, rest);
            return;
          }
        } else {
          assert rs + [] == rs;
        }
      }
      assert links[..|links|] == links;
    }

    /** Visits the namespace and location pairs of one schemaLocation attribute. */
    method ProcessPairs(ps: seq<Import>, base: Option<string>) returns (ok: bool)
      requires Valid() && state.bad.None? && AllIn(w, universe, Given(ps, base))
      modifies this
      ensures Valid() && state == VisitAll(w, universe, old(state), Given(ps, base))
      ensures ok <==> state.bad.None?
    {
      ghost var rs := Given(ps, base);
      for k := 0 to |ps|
        invariant Valid() && state.bad.None?
        invariant AllIn(w, universe, rs[..k])
        invariant state == VisitAll(w, universe, old(state), rs[..k])
      {
        assert rs[..k + 1] == rs[..k] + [rs[k]] && rs == rs[..k + 1] + rs[k + 1..];
        GivenParts(w, universe, rs, rs[..k + 1], rs[k + 1..]);
        VisitAllNext(w, universe, old(state), rs[..k], rs[k]);
        ok := ProcessSchemaLocation(Some(ps[k].ns), ps[k].loc, base);
        if !ok {
          VisitAllConcat(w, universe, old(state), rs[..k + 1], rs[k + 1..]);
          VisitAllFailed(w, universe, state, rs[k + 1..]);
          return;
        }
      }
      assert rs[..|ps|] == rs;
      return true;
    }
  }

  /** The visited set has grown by what the pairs of the document reach. */
  ghost predicate Complete(w: World, pairs: seq<Import>, base: Option<string>, visited: set<string>, after: set<string>) {
    forall a :: a in after <==> a in visited || Reached(w, Given(pairs, base), visited, a)
  }

  /** Some schema that the document reaches imports a location, unvisited at the
      call, without a namespace. */
  ghost predicate ReachesNameless(w: World, pairs: seq<Import>, base: Option<string>, visited: set<string>) {
    exists a, b :: Reached(w, Given(pairs, base), visited, a) && Nameless(w, a, b) && b !in visited
  }

  lemma {:induction false} ClosureOutcome(w: World, universe: set<string>, visited: set<string>,
                                          pairs: seq<Import>, base: Option<string>)
    requires Finite(w, universe) && AllIn(w, universe, Given(pairs, base))
    ensures var st := Closed(w, universe, visited, pairs, base);
            if st.bad.None? then Complete(w, pairs, base, visited, st.visited)
            else ReachesNameless(w, pairs, base, visited)
  {
    if Closed(w, universe, visited, pairs, base).bad.None? {
      forall a { ClosureIsReach(w, universe, visited, pairs, base, a); }
    } else {
      var a := FailureIsNameless(w, universe, visited, pairs, base);
    }
  }

  /** A location is taken as it is if it begins with a scheme or a slash, or if there is no base;
      otherwise it is joined to the base. */
  lemma {:induction false} ResolveIff(w: World, base: Option<string>, loc: string)
    ensures "http://" <= loc || "https://" <= loc || "/" <= loc ==> Resolve(w, base, loc) == loc
    ensures base == None || base == Some("") ==> Resolve(w, base, loc) == loc
    ensures base.Some? && base.value != "" && !("http://" <= loc) && !("https://" <= loc) && !("/" <= loc)
            ==> Resolve(w, base, loc) == w.join(base.value, loc)
  {
  }

  /** What the call leaves visited holds every location of the document, joined to the base
      unless it is absolute. */
  lemma {:induction false} PairVisited(w: World, pairs: seq<Import>, base: string, visited: set<string>,
                                       after: set<string>, k: nat)
    requires Complete(w, pairs, Some(base), visited, after) && k < |pairs| && base != ""
    ensures if "http://" <= pairs[k].loc || "https://" <= pairs[k].loc || "/" <= pairs[k].loc
            then pairs[k].loc in after else w.join(base, pairs[k].loc) in after
  {
    ResolveIff(w, Some(base), pairs[k].loc);
    AskedVisited(w, pairs, Some(base), visited, after, k);
  }

  /** Without a base the locations of the document are visited as they are. */
  lemma {:induction false} PairVisitedBare(w: World, pairs: seq<Import>, visited: set<string>, after: set<string>, k: nat)
    requires Complete(w, pairs, None, visited, after) && k < |pairs|
    ensures pairs[k].loc in after
  {
    AskedVisited(w, pairs, None, visited, after, k);
  }

  lemma {:induction false} AskedVisited(w: World, pairs: seq<Import>, base: Option<string>, visited: set<string>,
                                        after: set<string>, k: nat)
    requires Complete(w, pairs, base, visited, after) && k < |pairs|
    ensures Resolve(w, base, pairs[k].loc) in after
  {
    var rs, a := Given(pairs, base), Resolve(w, base, pairs[k].loc);
    assert rs[k] in rs && Key(w, rs[k]) == a;
    if a !in visited {
      var p := [a];
      assert Asked(w, rs, a) && Path(w, rs, visited, p) && p[|p| - 1] == a;
    }
  }

  /** And with every newly visited schema that loads, every location it links to, joined to the
      base of that schema unless it is absolute. */
  lemma {:induction false} LinkVisited(w: World, pairs: seq<Import>, base: Option<string>, visited: set<string>,
                                       after: set<string>, a: string, l: Link)
    requires Complete(w, pairs, base, visited, after) && a in after && a !in visited && w.load(a).Some?
    requires l in w.load(a).value.imports || l in w.load(a).value.includes
    requires l.loc.Some? && l.loc.value != "" && w.load(a).value.base != ""
    ensures var loc := l.loc.value;
            if "http://" <= loc || "https://" <= loc || "/" <= loc then loc in after
            else w.join(w.load(a).value.base, loc) in after
  {
    var s, loc := w.load(a).value, l.loc.value;
    var b := Resolve(w, Some(s.base), loc);
    ResolveIff(w, Some(s.base), loc);
    assert Leads(w, a, l, b) && Step(w, a, b);
    if b !in visited { StepReached(w, Given(pairs, base), visited, a, b); }
  }

  lemma {:induction false} StepReached(w: World, rs: seq<Request>, before: set<string>, a: string, b: string)
    requires Reached(w, rs, before, a) && Step(w, a, b) && b !in before
    ensures Reached(w, rs, before, b)
  {
    var p :| Path(w, rs, before, p) && p[|p| - 1] == a;
    var q := p + [b];
    forall k | 0 < k < |q| ensures Step(w, q[k - 1], q[k]) {
      if k < |p| { assert Step(w, p[k - 1], p[k]); }
    }
    assert Path(w, rs, before, q) && q[|q| - 1] == b;
  }

  /** The schema at `a` links to `b` with a location that is not empty. */
  ghost predicate LinksTo(w: World, a: string, l: Link, b: string) {
    && w.load(a).Some? && (l in w.load(a).value.imports || l in w.load(a).value.includes)
    && l.loc.Some? && l.loc.value != "" && b == Resolve(w, Some(w.load(a).value.base), l.loc.value)
  }

  /** Nothing else is visited: each new location is one of the document's, or one that a visited
      schema links to. */
  lemma {:induction false} VisitedFrom(w: World, pairs: seq<Import>, base: Option<string>, visited: set<string>,
                                       after: set<string>, b: string)
    requires Complete(w, pairs, base, visited, after) && b in after && b !in visited
    ensures (exists k :: 0 <= k < |pairs| && Resolve(w, base, pairs[k].loc) == b)
            || exists a, l :: a in after && a !in visited && LinksTo(w, a, l, b)
  {
    var rs := Given(pairs, base);
    var p :| Path(w, rs, visited, p) && p[|p| - 1] == b;
    if |p| == 1 {
      var r :| r in rs && Key(w, r) == b;
      var k :| 0 <= k < |rs| && rs[k] == r;
      assert Resolve(w, base, pairs[k].loc) == b;
    } else {
      var n := |p| - 2;
      var q := p[..n + 1];
      forall k | 0 < k < |q| ensures Step(w, q[k - 1], q[k]) { assert Step(w, p[k - 1], p[k]); }
      assert Path(w, rs, visited, q) && q[|q| - 1] == p[n] && Step(w, p[n], p[n + 1]);
      assert Reached(w, rs, visited, p[n]);
      var l :| Leads(w, p[n], l, b) && (l in w.load(p[n]).value.imports || l in w.load(p[n]).value.includes);
      assert LinksTo(w, p[n], l, b);
    }
  }

  lemma {:induction false} GivenConcat(a: seq<Import>, b: seq<Import>, base: Option<string>)
    ensures Given(a + b, base) == Given(a, base) + Given(b, base)
  {
  }

  lemma {:induction false} PairsNext(locations: seq<seq<string>>, i: nat, base: Option<string>)
    requires i < |locations|
    ensures Given(AllPairs(locations[..i + 1]), base)
            == Given(AllPairs(locations[..i]), base) + Given(Pairs(locations[i]), base)
  {
    assert locations[..i + 1][..i] == locations[..i];
    GivenConcat(AllPairs(locations[..i]), Pairs(locations[i]), base);
  }

  /** Each attribute of the document gives its pairs, in the order of the attributes. */
  lemma {:induction false} AttributePairs(locations: seq<seq<string>>, i: nat, k: nat)
    requires i < |locations| && 2 * k + 1 < |locations[i]|
    ensures var before, all := |AllPairs(locations[..i])|, AllPairs(locations);
            && before + k < |all| && all[before + k] == Import(locations[i][2 * k], locations[i][2 * k + 1])
    decreases |locations|
  {
    var n := |locations| - 1;
    if i == n {
      PairsAt(locations[n], k);
    } else {
      assert locations[..n][..i] == locations[..i];
      AttributePairs(locations[..n], i, k);
    }
  }

  lemma {:induction false} PairsSplit(w: World, universe: set<string>, locations: seq<seq<string>>, i: nat,
                                      base: Option<string>) returns (rest: seq<Request>)
    requires i < |locations| && AllIn(w, universe, Given(AllPairs(locations), base))
    ensures Given(AllPairs(locations[..i + 1]), base)
            == Given(AllPairs(locations[..i]), base) + Given(Pairs(locations[i]), base)
    ensures Given(AllPairs(locations), base) == Given(AllPairs(locations[..i + 1]), base) + rest
    ensures AllIn(w, universe, Given(AllPairs(locations[..i]), base))
    ensures AllIn(w, universe, Given(Pairs(locations[i]), base)) && AllIn(w, universe, rest)
    decreases |locations|
  {
    PairsNext(locations, i, base);
    var n := |locations| - 1;
    var last := Given(Pairs(locations[n]), base);
    GivenConcat(AllPairs(locations[..n]), Pairs(locations[n]), base);
    GivenParts(w, universe, Given(AllPairs(locations), base), Given(AllPairs(locations[..n]), base), last);
    if i == n {
      assert locations[..i + 1] == locations;
      rest := [];
    } else {
      assert locations[..n][..i] == locations[..i] && locations[..n][..i + 1] == locations[..i + 1];
      rest := PairsSplit(w, universe, locations[..n], i, base);
      rest := rest + last;
    }
  }

  lemma {:induction false} GivenParts(w: World, universe: set<string>, rs: seq<Request>, ts: seq<Request>, us: seq<Request>)
    requires AllIn(w, universe, rs) && rs == ts + us
    ensures AllIn(w, universe, ts) && AllIn(w, universe, us)
  {
    forall t | t in ts ensures t in rs { }
    forall t | t in us ensures t in rs { }
  }

  /** The import elements for a document, and the visited set as the call leaves it.

      `universe` bounds the schema graph, which may be cyclic. The document's
      distinct schemaLocation attributes come in any order. */
  method GetSchemas(w: World, doc: Option<Document>, base: Option<string>, visited: set<string>,
                    ghost universe: set<string>)
    returns (r: Outcome, after: set<string>)
    requires Finite(w, universe)
    requires doc.Some? ==> AllIn(w, universe, Given(AllPairs(doc.value.locations), base))
    ensures r.ValueError? <==> doc.None? || !doc.value.xsi
    ensures r.ValueError? ==> after == visited
    ensures !r.ValueError? ==>
              var st := Closed(w, universe, visited, AllPairs(doc.value.locations), base);
              && after == st.visited && (r.TypeError? <==> st.bad.Some?)
              && (r.Closure? ==> r.imports == Elements(st.entries))
    ensures r.Closure? ==> Complete(w, AllPairs(doc.value.locations), base, visited, after)
    ensures r.TypeError? ==> ReachesNameless(w, AllPairs(doc.value.locations), base, visited)
  {
    if doc.None? || !doc.value.xsi { return ValueError, visited; }
    var locations := doc.value.locations;
    ghost var st0 := State(visited, [], None);
    var walk := new Walk(w, visited, universe);
    ClosureOutcome(w, universe, visited, AllPairs(locations), base);
    for i := 0 to |locations|
      invariant fresh(walk) && walk.w == w && walk.universe == universe && walk.Valid() && walk.state.bad.None?
      invariant AllIn(w, universe, Given(AllPairs(locations[..i]), base))
      invariant walk.state == VisitAll(w, universe, st0, Given(AllPairs(locations[..i]), base))
    {
      ghost var rest := PairsSplit(w, universe, locations, i, base);
      ghost var done := Given(AllPairs(locations[..i]), base);
      ghost var now := Given(Pairs(locations[i]), base);
      VisitAllConcat(w, universe, st0, done, now);
      var ok := walk.ProcessPairs(Pairs(locations[i]), base);
      if !ok {
        VisitAllConcat(w, universe, st0, done + now, rest);
        VisitAllFailed(w, universe, walk.state, rest);
        return TypeError, walk.visited;
      }
    }
    assert locations[..|locations|] == locations;
    return Closure(walk.imports), walk.visited;
  }
}
