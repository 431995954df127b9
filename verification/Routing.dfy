/** Nested contacts and recursive route following through a tree of brokers. */
module Routing {
  import opened Bytes
  import opened Options
  import opened Seqs
  import opened Text

  /** A registrant: an ordinary daemon, or an inside broker with its own registrants by id. */
  datatype Node = Daemon(name: string) | Inside(targets: map<nat, Node>)

  // ---------- contacts ----------

  /** The contact a broker stamps on a registrant: under its own tunnel contact once it has one, else its address. */
  function ContactString(tunnel: Option<string>, address: string, id: nat): string {
    if tunnel.Some? && tunnel.value != "" then tunnel.value + "#" + FormatUint(id) else address + "#" + FormatUint(id)
  }

  /** The tunnel contact of the broker reached by `path` from the outer broker. */
  function TunnelOf(outer: string, path: seq<nat>): Option<string> {
    if path == [] then None
    else Some(ContactString(TunnelOf(outer, path[..|path| - 1]), outer, path[|path| - 1]))
  }

  /** The contact stamped on the registrant at the end of a path, by the broker just above it. */
  function Stamped(outer: string, path: seq<nat>): string
    requires path != []
  {
    ContactString(TunnelOf(outer, path[..|path| - 1]), outer, path[|path| - 1])
  }

  /** "#i0#i1...#ik". */
  function Suffix(path: seq<nat>): string {
    if path == [] then "" else Suffix(path[..|path| - 1]) + "#" + FormatUint(path[|path| - 1])
  }

  function Formats(path: seq<nat>): seq<string> {
    if path == [] then [] else Formats(path[..|path| - 1]) + [FormatUint(path[|path| - 1])]
  }

  /** Stamping nests: the contact is the outer address followed by every id on the path. */
  lemma {:induction false} StampedNests(outer: string, path: seq<nat>)
    requires path != []
    ensures Stamped(outer, path) == outer + Suffix(path)
    ensures TunnelOf(outer, path) == Some(outer + Suffix(path))
  {
    var init := path[..|path| - 1];
    if init != [] {
      StampedNests(outer, init);
      assert |Suffix(init)| > 0;
      assert (outer + Suffix(init)) + "#" + FormatUint(path[|path| - 1])
          == outer + (Suffix(init) + "#" + FormatUint(path[|path| - 1]));
    } else {
      assert Suffix(path) == "" + "#" + FormatUint(path[0]);
      assert outer + "#" + FormatUint(path[0]) == outer + Suffix(path);
    }
  }

  lemma HashFree(n: nat)
    ensures Word(IsHash, FormatUint(n)) && Word(IsSpace, FormatUint(n))
  {
  }

  lemma {:induction false} FieldsAppendWord(s: string, w: string)
    requires Word(IsHash, w)
    ensures FieldsBy(IsHash, s + ("#" + w)) == FieldsBy(IsHash, s) + [w]
    decreases |s|
  {
    NoFields();
    hide FieldsBy, WordLength, IsHash;
    var tail := "#" + w;
    if s == "" {
      assert s + tail == tail;
      assert IsHash('#') by { HashIsHash(); }
      FieldsSkip(IsHash, '#', w);
      FieldsWord(IsHash, w, "");
      assert w + "" == w;
    } else if IsHash(s[0]) {
      FieldsAppendWord(s[1..], w);
      assert s == [s[0]] + s[1..] && s + tail == [s[0]] + (s[1..] + tail);
      FieldsSkip(IsHash, s[0], s[1..]);
      FieldsSkip(IsHash, s[0], s[1..] + tail);
    } else {
      var n := WordLength(IsHash, s);
      var first, rest := s[..n], s[n..];
      WordEnds(IsHash, s);
      FieldsAppendWord(rest, w);
      assert IsHash('#') by { HashIsHash(); }
      assert s == first + rest && s + tail == first + (rest + tail);
      FieldsWord(IsHash, first, rest);
      FieldsWord(IsHash, first, rest + tail);
    }
  }

  lemma HashIsHash()
    ensures IsHash('#')
  {
  }

  lemma {:induction false} WordEnds(sep: char -> bool, s: string)
    ensures var n := WordLength(sep, s); n == |s| || sep(s[n])
    decreases |s|
  {
    if s != "" && !sep(s[0]) {
      WordEnds(sep, s[1..]);
    }
  }

  lemma NoFields()
    ensures FieldsBy(IsHash, "") == []
  {
  }

  lemma {:induction false} SuffixFields(path: seq<nat>)
    ensures FieldsBy(IsHash, Suffix(path)) == Formats(path)
  {
    NoFields();
    hide FieldsBy, FormatUint, Word;
    if path != [] {
      var init, last := path[..|path| - 1], path[|path| - 1];
      SuffixFields(init);
      HashFree(last);
      FieldsAppendWord(Suffix(init), FormatUint(last));
      assert Suffix(path) == Suffix(init) + ("#" + FormatUint(last));
    }
  }

  lemma {:induction false} FormatsInjective(p: seq<nat>, q: seq<nat>)
    requires Formats(p) == Formats(q)
    ensures p == q
  {
    if p != [] && q != [] {
      var n := |Formats(p)| - 1;
      assert Formats(p)[n] == Formats(q)[n] && Formats(p)[..n] == Formats(q)[..n];
      ValueOfFormat(p[|p| - 1]);
      ValueOfFormat(q[|q| - 1]);
      FormatsInjective(p[..|p| - 1], q[..|q| - 1]);
    }
  }

  /** No two registrants of a tree are stamped with the same contact. */
  lemma ContactsDistinct(outer: string, p: seq<nat>, q: seq<nat>)
    requires p != [] && q != [] && Stamped(outer, p) == Stamped(outer, q)
    ensures p == q
  {
    StampedNests(outer, p);
    StampedNests(outer, q);
    assert Suffix(p) == (outer + Suffix(p))[|outer|..] == (outer + Suffix(q))[|outer|..] == Suffix(q);
    SuffixFields(p);
    SuffixFields(q);
    FormatsInjective(p, q);
  }

  // ---------- following a route ----------

  function ParseTargetID(s: string): Option<nat> {
    ParseUint(TrimSpace(s))
  }

  /** The first word of a route and the rest, joined again. */
  function SplitRoute(route: string): (string, string) {
    var fs := Fields(route);
    if fs == [] then ("", "") else (fs[0], Join(fs[1..]))
  }

  /**
   * Where a request ends, after some relays: with a registrant and its route used up, with a daemon that
   * cannot relay and was handed a route all the same, or dropped.
   */
  datatype Outcome = Reached(node: Node, relays: nat) | LeftOver(node: Node, relays: nat) | Dropped

  lemma TailShrinks(route: string)
    requires Fields(route) != []
    ensures Fields(SplitRoute(route).1) == Fields(route)[1..]
  {
    FieldsOfJoin(Fields(route)[1..]);
  }

  /** What a registrant does with a forwarded request: take it, or, as a broker with a route, relay it onward. */
  function Relay(t: Node, route: string): Outcome
    decreases |Fields(route)|
  {
    if route == "" then Reached(t, 0) else
    match t
    case Daemon(_) => LeftOver(t, 0)
    case Inside(targets) =>
      var (head, tail) := SplitRoute(route);
      if head == "" then Dropped else
      var id := ParseTargetID(head);
      if id.None? || id.value !in targets then Dropped else
      assert Fields(route) != [];
      TailShrinks(route);
      match Relay(targets[id.value], tail)
      case Reached(node, n) => Reached(node, n + 1)
      case LeftOver(node, n) => LeftOver(node, n + 1)
      case Dropped => Dropped
  }

  /** A client's request at the outer broker for `ccbid`, with the ids beyond it as `route`. */
  function Ask(targets: map<nat, Node>, ccbid: string, route: string): Outcome {
    var id := ParseTargetID(ccbid);
    if id.None? || id.value !in targets then Dropped else Relay(targets[id.value], route)
  }

  /** The registrant at the end of a path of ids through nested brokers. */
  function NodeAt(targets: map<nat, Node>, path: seq<nat>): Option<Node>
    requires path != []
    decreases |path|
  {
    if path[0] !in targets then None
    else if |path| == 1 then Some(targets[path[0]])
    else match targets[path[0]]
         case Daemon(_) => None
         case Inside(inner) => NodeAt(inner, path[1..])
  }

  function ParseAll(fs: seq<string>): Option<seq<nat>> {
    if fs == [] then Some([]) else
    match ParseTargetID(fs[0])
    case None => None
    case Some(id) =>
      match ParseAll(fs[1..])
      case None => None
      case Some(ids) => Some([id] + ids)
  }

  /** The ids a request names, if its texts are well formed; a route of spaces alone is not. */
  function PathOf(ccbid: string, route: string): Option<seq<nat>> {
    if route != "" && Fields(route) == [] then None else ParseAll([ccbid] + Fields(route))
  }

  lemma NoWords()
    ensures Fields("") == []
  {
  }

  lemma {:induction false} RelayFollows(t: Node, route: string, node: Node, n: nat)
    ensures Relay(t, route) == Reached(node, n) <==>
            && (route == "" || Fields(route) != [])
            && var ids := ParseAll(Fields(route));
               && ids.Some? && n == |ids.value|
               && (if ids.value == [] then node == t else t.Inside? && NodeAt(t.targets, ids.value) == Some(node))
    decreases |Fields(route)|
  {
    NoWords();
    hide FieldsBy, ParseTargetID, Join;
    if route != "" && t.Inside? && Fields(route) != [] {
      var fs := Fields(route);
      var (head, tail) := SplitRoute(route);
      TailShrinks(route);
      assert Word(IsSpace, fs[0]);
      var id := ParseTargetID(head);
      if id.Some? && id.value in t.targets {
        JoinEmpty(fs[1..]);
        RelayFollows(t.targets[id.value], tail, node, if n > 0 then n - 1 else 0);
        var ids := ParseAll(fs);
        if ids.Some? {
          assert ids.value[1..] == ParseAll(fs[1..]).value;
        }
      }
    }
  }

  lemma JoinEmpty(fs: seq<string>)
    requires Words(IsSpace, fs)
    ensures Join(fs) == "" <==> fs == []
  {
    if fs != [] {
      assert Word(IsSpace, fs[0]);
    }
  }

  /** A daemon is handed a route it cannot follow exactly when the words before some proper part of it lead there. */
  lemma {:induction false} RelayLeaves(t: Node, route: string, node: Node, n: nat)
    ensures Relay(t, route) == LeftOver(node, n) <==>
            && node.Daemon? && route != ""
            && if n == 0 then node == t else
               && n < |Fields(route)|
               && var ids := ParseAll(Fields(route)[..n]);
                  ids.Some? && ids.value != [] && t.Inside? && NodeAt(t.targets, ids.value) == Some(node)
    decreases |Fields(route)|
  {
    NoWords();
    hide FieldsBy, ParseTargetID, Join;
    if route != "" && t.Inside? && Fields(route) != [] {
      var fs := Fields(route);
      var (head, tail) := SplitRoute(route);
      TailShrinks(route);
      assert Word(IsSpace, fs[0]);
      var id := ParseTargetID(head);
      JoinEmpty(fs[1..]);
      if 0 < n < |fs| {
        assert fs[..n][1..] == fs[1..][..n - 1];
      }
      if id.Some? && id.value in t.targets {
        RelayLeaves(t.targets[id.value], tail, node, if n > 0 then n - 1 else 0);
        if 0 < n < |fs| && ParseAll(fs[..n]).Some? {
          assert ParseAll(fs[..n]).value[1..] == ParseAll(fs[1..][..n - 1]).value;
        }
      }
    }
  }

  /**
   * A request reaches a registrant with its route used up if and only if its ids name the path to that
   * registrant, one relay per id beyond the first: never one on another branch, whatever the texts.
   */
  lemma AskFollowsPath(targets: map<nat, Node>, ccbid: string, route: string, node: Node, n: nat)
    ensures Ask(targets, ccbid, route) == Reached(node, n) <==>
            var path := PathOf(ccbid, route);
            path.Some? && path.value != [] && NodeAt(targets, path.value) == Some(node) && n == |path.value| - 1
  {
    var fs := Fields(route);
    assert ([ccbid] + fs)[1..] == fs;
    var id := ParseTargetID(ccbid);
    if id.Some? && id.value in targets {
      RelayFollows(targets[id.value], route, node, n);
      var ids := ParseAll(fs);
      if ids.Some? {
        assert ([id.value] + ids.value)[1..] == ids.value;
      }
    }
  }

  /**
   * A request ends at a daemon with part of its route left over if and only if its first ids, but not all of
   * its route, name the path to that daemon.
   */
  lemma AskLeaves(targets: map<nat, Node>, ccbid: string, route: string, node: Node, n: nat)
    ensures Ask(targets, ccbid, route) == LeftOver(node, n) <==>
            && node.Daemon? && route != "" && (n == 0 || n < |Fields(route)|)
            && var path := ParseAll([ccbid] + if n == 0 then [] else Fields(route)[..n]);
               path.Some? && path.value != [] && NodeAt(targets, path.value) == Some(node)
  {
    var fs := if 0 < n < |Fields(route)| then Fields(route)[..n] else [];
    assert ([ccbid] + fs)[1..] == fs;
    var id := ParseTargetID(ccbid);
    if id.Some? && id.value in targets {
      RelayLeaves(targets[id.value], route, node, n);
      var ids := ParseAll(fs);
      if ids.Some? {
        assert ([id.value] + ids.value)[1..] == ids.value;
      }
    }
  }

  lemma {:induction false} ParseFormats(path: seq<nat>)
    requires forall i :: 0 <= i < |path| ==> path[i] < U64
    ensures ParseAll(Formats(path)) == Some(path) && Words(IsSpace, Formats(path)) && |Formats(path)| == |path|
    decreases |path|
  {
    if path != [] {
      FormatsFirst(path);
      ParseFormats(path[1..]);
      HashFree(path[0]);
      TrimWord(FormatUint(path[0]));
      ParseOfFormat(path[0]);
      var fs := Formats(path);
      assert fs[1..] == Formats(path[1..]);
      assert path == [path[0]] + path[1..];
    }
  }

  lemma {:induction false} FormatsFirst(path: seq<nat>)
    requires path != []
    ensures Formats(path) == [FormatUint(path[0])] + Formats(path[1..])
  {
    if |path| > 1 {
      var init := path[..|path| - 1];
      FormatsFirst(init);
      assert path[1..][..|path| - 2] == init[1..];
    }
  }

  /**
   * Nested-contact routing: asking the outer broker for the first id of a registrant's contact, with the
   * other ids as the route, reaches exactly that registrant, after one relay per further id; and no other
   * registrant of the tree carries that contact.
   */
  lemma ContactReachesItsRegistrant(outer: string, targets: map<nat, Node>, path: seq<nat>, node: Node)
    requires path != [] && (forall i :: 0 <= i < |path| ==> path[i] < U64)
    requires NodeAt(targets, path) == Some(node)
    ensures Stamped(outer, path) == outer + Suffix(path)
    ensures Ask(targets, FormatUint(path[0]), Join(Formats(path[1..]))) == Reached(node, |path| - 1)
    ensures forall other :: other != [] && Stamped(outer, other) == Stamped(outer, path) ==> other == path
  {
    StampedNests(outer, path);
    var route := Join(Formats(path[1..]));
    ParseFormats(path);
    ParseFormats(path[1..]);
    FormatsFirst(path);
    FieldsOfJoin(Formats(path[1..]));
    JoinEmpty(Formats(path[1..]));
    AskFollowsPath(targets, FormatUint(path[0]), route, node, |path| - 1);
    forall other | other != [] && Stamped(outer, other) == Stamped(outer, path)
      ensures other == path
    {
      ContactsDistinct(outer, other, path);
    }
  }

  /** Strict parsing: an id text with anything but digits inside surrounding spaces is refused, such as "42#17". */
  lemma StrictId(s: string, i: nat)
    requires i < |s| && !IsSpace(s[i]) && !IsDigit(s[i])
    ensures ParseTargetID(s) == None
  {
    var j := SkipSepsKeeps(IsSpace, s, i);
    TrimRightKeeps(SkipSeps(IsSpace, s), j);
  }

  lemma ParsedIsTrimmed(s: string) returns (a: string, b: string, c: string)
    ensures s == a + b + c && Blank(a) && Blank(c) && ParseTargetID(s) == ParseUint(b)
  {
    hide SkipSeps, TrimRight, ParseUint;
    var t := SkipSeps(IsSpace, s);
    SkippedIsBlank(s);
    TrimmedIsBlank(t);
    a, b, c := s[..|s| - |t|], TrimRight(t), t[|TrimRight(t)|..];
    assert s == a + t;
    assert t == b + c;
    Assoc(a, b, c);
  }

  lemma TrimmedIsParsed(a: string, b: string, c: string)
    requires Blank(a) && Blank(c) && ParseUint(b).Some?
    ensures ParseTargetID(a + b + c) == ParseUint(b)
  {
    hide TrimSpace;
    assert IsDigit(b[0]) && IsDigit(b[|b| - 1]);
    TrimExact(a, b, c);
  }

  /** An id text is read as a number exactly when, blanks around it apart, it is that number's decimal form. */
  lemma ParseIdIff(s: string, n: nat)
    ensures ParseTargetID(s) == Some(n)
            <==> exists a, b, c :: s == a + b + c && Blank(a) && Blank(c) && ParseUint(b) == Some(n)
  {
    hide ParseTargetID, ParseUint, Blank;
    if ParseTargetID(s) == Some(n) {
      var a, b, c := ParsedIsTrimmed(s);
      assert s == a + b + c && Blank(a) && Blank(c) && ParseUint(b) == Some(n);
    }
    if a, b, c :| s == a + b + c && Blank(a) && Blank(c) && ParseUint(b) == Some(n) {
      TrimmedIsParsed(a, b, c);
    }
  }
}
