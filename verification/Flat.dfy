/** What a directory means, with no tree in sight: which client subscribed to which pattern, and who owns
    which topic. Every trie operation is proved to be one simple update of this relation. */
module FlatDirectories {
  import opened Common
  import opened Matching
  import opened Tries
  import opened Topics

  datatype Flat = Flat(subs: set<(ClientId, Pattern)>, owners: map<Pattern, ClientId>) {
    function Subscribe(client: ClientId, p: Pattern): Flat {
      this.(subs := subs + {(client, p)})
    }

    function Unsubscribe(client: ClientId, p: Pattern): Flat {
      this.(subs := subs - {(client, p)})
    }

    function Owner(p: Pattern): Option<ClientId> {
      if p in owners then Some(owners[p]) else None
    }

    /** Claims are first come, first served; wildcard patterns cannot be claimed. */
    function Claim(client: ClientId, p: Pattern): (r: (Flat, Result<(), DirectoryError>)) {
      if !Concrete(p) then (this, Err(ClaimWildcardNotSupported))
      else if p in owners then (this, if owners[p] == client then Ok(()) else Err(TopicAlreadyClaimed))
      else (this.(owners := owners[p := client]), Ok(()))
    }

    function Unclaim(client: ClientId, p: Pattern): Flat {
      if Owner(p) == Some(client) then this.(owners := owners - {p}) else this
    }

    function DropClient(client: ClientId): Flat {
      Flat(set e | e in subs && e.0 != client, map p | p in owners && owners[p] != client :: owners[p])
    }

    /** The clients with a subscription that matches the published pattern `q`. */
    ghost function Subscribers(q: Pattern): set<ClientId> {
      set e | e in subs && Overlap(e.1, q) :: e.0
    }

    /** The patterns to which `client`, and nobody else, is subscribed. */
    function SoleSubscriptions(client: ClientId): set<Pattern> {
      set e | e in subs && e.0 == client && (forall o | o in subs && o.1 == e.1 :: o.0 == client) :: e.1
    }
  }

  /** What every directory satisfies: patterns are those of topics, so the root has no subscriber, and nobody
      owns a wildcard. */
  ghost predicate WellFormed(f: Flat) {
    && (forall e | e in f.subs :: IsTopicPattern(e.1))
    && (forall p | p in f.owners :: IsTopicPattern(p) && Concrete(p))
  }

  // ---------- The flat view of a trie ----------

  predicate HasSub(n: Trie, client: ClientId, p: Pattern)
    decreases p
  {
    if p == [] then client in n.subscribers
    else p[0] in n.children && HasSub(n.children[p[0]], client, p[1..])
  }

  function OwnerAt(n: Trie, p: Pattern): Option<ClientId>
    decreases p
  {
    if p == [] then n.owner
    else if p[0] in n.children then OwnerAt(n.children[p[0]], p[1..])
    else None
  }

  function SubPairs(n: Trie): set<(ClientId, Pattern)> {
    (set c | c in n.subscribers :: (c, []))
    + (set k, e | k in n.children && e in SubPairs(n.children[k]) :: (e.0, [k] + e.1))
  }

  function OwnedPaths(n: Trie): set<Pattern> {
    (if n.owner.Some? then {[]} else {})
    + (set k, p | k in n.children && p in OwnedPaths(n.children[k]) :: [k] + p)
  }

  lemma {:induction false} SubPairsIff(n: Trie, c: ClientId, p: Pattern)
    ensures (c, p) in SubPairs(n) <==> HasSub(n, c, p)
    decreases p
  {
    if p != [] {
      assert p == [p[0]] + p[1..];
      if p[0] in n.children { SubPairsIff(n.children[p[0]], c, p[1..]); }
      if (c, p) in SubPairs(n) {
        var k, e :| k in n.children && e in SubPairs(n.children[k]) && (c, p) == (e.0, [k] + e.1);
        assert e == (c, p[1..]);
      }
      if HasSub(n, c, p) {
        assert (c, p[1..]) in SubPairs(n.children[p[0]]);
      }
    }
  }

  lemma {:induction false} OwnedPathsIff(n: Trie, p: Pattern)
    ensures p in OwnedPaths(n) <==> OwnerAt(n, p).Some?
    decreases p
  {
    if p != [] {
      assert p == [p[0]] + p[1..];
      if p[0] in n.children { OwnedPathsIff(n.children[p[0]], p[1..]); }
      if p in OwnedPaths(n) {
        var k, q :| k in n.children && q in OwnedPaths(n.children[k]) && p == [k] + q;
        assert q == p[1..];
      }
    }
  }

  ghost function View(n: Trie): (f: Flat)
    ensures forall c: ClientId, p :: (c, p) in f.subs <==> HasSub(n, c, p)
    ensures forall p :: f.Owner(p) == OwnerAt(n, p)
  {
    forall c: ClientId, p ensures (c, p) in SubPairs(n) <==> HasSub(n, c, p) { SubPairsIff(n, c, p); }
    forall p ensures p in OwnedPaths(n) <==> OwnerAt(n, p).Some? { OwnedPathsIff(n, p); }
    Flat(SubPairs(n), map p | p in OwnedPaths(n) :: OwnerAt(n, p).value)
  }

  ghost predicate SameAt(f: Flat, g: Flat, c: ClientId, p: Pattern) {
    ((c, p) in f.subs <==> (c, p) in g.subs) && f.Owner(p) == g.Owner(p)
  }

  /** Two flat directories with the same content are equal. */
  lemma FlatExtensional(f: Flat, g: Flat)
    requires forall c: ClientId, p :: SameAt(f, g, c, p)
    ensures f == g
  {
    forall e ensures e in f.subs <==> e in g.subs { assert SameAt(f, g, e.0, e.1); assert e == (e.0, e.1); }
    forall p ensures f.Owner(p) == g.Owner(p) { assert SameAt(f, g, 0, p); }
    forall p ensures p in f.owners <==> p in g.owners { assert f.Owner(p) == g.Owner(p); }
    forall p | p in f.owners ensures f.owners[p] == g.owners[p] { assert f.Owner(p) == g.Owner(p); }
    assert f.owners == g.owners;
  }

  // ---------- Each trie operation, pointwise ----------

  lemma {:induction false} EmptyPointwise(c: ClientId, p: Pattern)
    ensures !HasSub(EMPTY, c, p) && OwnerAt(EMPTY, p) == None
  {}

  lemma {:induction false} SubscribePointwise(n: Trie, client: ClientId, q: Pattern, c: ClientId, p: Pattern)
    ensures HasSub(Subscribe(n, client, q), c, p) <==> HasSub(n, c, p) || (c == client && p == q)
    ensures OwnerAt(Subscribe(n, client, q), p) == OwnerAt(n, p)
    decreases q
  {
    if q != [] {
      if p != [] && p[0] == q[0] {
        SubscribePointwise(ChildOrEmpty(n, q[0]), client, q[1..], c, p[1..]);
        assert p == [p[0]] + p[1..] && q == [q[0]] + q[1..];
        if q[0] !in n.children { EmptyPointwise(c, p[1..]); }
      }
    }
  }

  lemma {:induction false} UnsubscribePointwise(n: Trie, client: ClientId, q: Pattern, c: ClientId, p: Pattern)
    ensures HasSub(Unsubscribe(n, client, q), c, p) <==> HasSub(n, c, p) && !(c == client && p == q)
    ensures OwnerAt(Unsubscribe(n, client, q), p) == OwnerAt(n, p)
    decreases q
  {
    if q != [] && q[0] in n.children && p != [] && p[0] == q[0] {
      UnsubscribePointwise(n.children[q[0]], client, q[1..], c, p[1..]);
      assert p == [p[0]] + p[1..] && q == [q[0]] + q[1..];
    }
  }

  lemma {:induction false} ClaimPointwise(n: Trie, client: ClientId, q: Pattern, c: ClientId, p: Pattern)
    ensures var (m, r) := Claim(n, client, q);
            && (HasSub(m, c, p) <==> HasSub(n, c, p))
            && (r == if !Concrete(q) then Err(ClaimWildcardNotSupported)
                     else if OwnerAt(n, q).Some? && OwnerAt(n, q) != Some(client) then Err(TopicAlreadyClaimed)
                     else Ok(()))
            && OwnerAt(m, p) == if p == q && r.Ok? then Some(client) else OwnerAt(n, p)
    decreases q
  {
    if q != [] && !IsWildcard(q[0]) {
      var child := ChildOrEmpty(n, q[0]);
      assert q == [q[0]] + q[1..];
      assert Concrete(q) <==> Concrete(q[1..]) by { ConcreteTail(q); }
      EmptyPointwise(c, q[1..]);
      if p != [] && p[0] == q[0] {
        ClaimPointwise(child, client, q[1..], c, p[1..]);
        EmptyPointwise(c, p[1..]);
        assert p == [p[0]] + p[1..];
      } else {
        ClaimPointwise(child, client, q[1..], c, q[1..]);
      }
    }
  }

  lemma ConcreteTail(q: Pattern)
    requires q != []
    ensures Concrete(q) <==> !IsWildcard(q[0]) && Concrete(q[1..])
  {
    if !IsWildcard(q[0]) && Concrete(q[1..]) {
      forall i | 0 <= i < |q| ensures !IsWildcard(q[i]) { if i > 0 { assert q[i] == q[1..][i - 1]; } }
    }
  }

  lemma {:induction false} UnclaimPointwise(n: Trie, client: ClientId, q: Pattern, c: ClientId, p: Pattern)
    ensures var (m, r) := Unclaim(n, client, q);
            && (HasSub(m, c, p) <==> HasSub(n, c, p))
            && (r.Ok? || r == Err(ClaimWildcardNotSupported)) && (r.Err? ==> !Concrete(q))
            && (Concrete(q) ==> r.Ok?)
            && OwnerAt(m, p) == if p == q && Concrete(q) && OwnerAt(n, q) == Some(client) then None else OwnerAt(n, p)
    decreases q
  {
    if q != [] {
      ConcreteTail(q);
      assert q == [q[0]] + q[1..];
      if !IsWildcard(q[0]) && q[0] in n.children {
        if p != [] && p[0] == q[0] {
          UnclaimPointwise(n.children[q[0]], client, q[1..], c, p[1..]);
          assert p == [p[0]] + p[1..];
        } else {
          UnclaimPointwise(n.children[q[0]], client, q[1..], c, q[1..]);
        }
      }
    }
  }

  lemma {:induction false} DropPointwise(n: Trie, client: ClientId, c: ClientId, p: Pattern)
    ensures HasSub(DropClient(n, client), c, p) <==> HasSub(n, c, p) && c != client
    ensures OwnerAt(DropClient(n, client), p) == if OwnerAt(n, p) == Some(client) then None else OwnerAt(n, p)
    decreases p
  {
    if p != [] && p[0] in n.children {
      DropPointwise(n.children[p[0]], client, c, p[1..]);
    }
  }

  // ---------- The trie refines the flat directory ----------

  lemma ViewEmpty()
    ensures View(EMPTY) == Flat({}, map[])
  {
    var f, g := View(EMPTY), Flat({}, map[]);
    forall c: ClientId, p ensures SameAt(f, g, c, p) { EmptyPointwise(c, p); }
    FlatExtensional(f, g);
  }

  lemma ViewSubscribe(n: Trie, client: ClientId, q: Pattern)
    ensures View(Subscribe(n, client, q)) == View(n).Subscribe(client, q)
  {
    var f, g := View(Subscribe(n, client, q)), View(n).Subscribe(client, q);
    forall c: ClientId, p ensures SameAt(f, g, c, p) { SubscribePointwise(n, client, q, c, p); }
    FlatExtensional(f, g);
  }

  lemma ViewUnsubscribe(n: Trie, client: ClientId, q: Pattern)
    ensures View(Unsubscribe(n, client, q)) == View(n).Unsubscribe(client, q)
  {
    var f, g := View(Unsubscribe(n, client, q)), View(n).Unsubscribe(client, q);
    forall c: ClientId, p ensures SameAt(f, g, c, p) { UnsubscribePointwise(n, client, q, c, p); }
    FlatExtensional(f, g);
  }

  /** A claim changes at most one owner and no subscription. A refused claim changes nothing in this view,
      although it may have grown the trie. */
  lemma ViewClaim(n: Trie, client: ClientId, q: Pattern)
    ensures var (m, r) := Claim(n, client, q);
            (View(m), r) == View(n).Claim(client, q)
  {
    var f, g := View(Claim(n, client, q).0), View(n).Claim(client, q).0;
    assert View(n).Owner(q) == OwnerAt(n, q);
    ClaimPointwise(n, client, q, 0, q);
    forall c: ClientId, p ensures SameAt(f, g, c, p) {
      ClaimPointwise(n, client, q, c, p);
      assert View(n).Owner(p) == OwnerAt(n, p);
    }
    FlatExtensional(f, g);
  }

  lemma ViewUnclaim(n: Trie, client: ClientId, q: Pattern)
    requires WellFormed(View(n))
    ensures var (m, r) := Unclaim(n, client, q);
            && View(m) == View(n).Unclaim(client, q)
            && r == if UnclaimRefused(n, q) then Err(ClaimWildcardNotSupported) else Ok(())
  {
    var f, g := View(Unclaim(n, client, q).0), View(n).Unclaim(client, q);
    assert View(n).Owner(q) == OwnerAt(n, q);
    forall c: ClientId, p ensures SameAt(f, g, c, p) {
      UnclaimPointwise(n, client, q, c, p);
      assert View(n).Owner(p) == OwnerAt(n, p);
    }
    FlatExtensional(f, g);
    UnclaimResult(n, client, q);
  }

  /** Unclaiming reports a wildcard only when it walks into one: a missing child ends the walk first. */
  predicate UnclaimRefused(n: Trie, q: Pattern)
    decreases q
  {
    q != [] && (IsWildcard(q[0]) || (q[0] in n.children && UnclaimRefused(n.children[q[0]], q[1..])))
  }

  lemma {:induction false} UnclaimResult(n: Trie, client: ClientId, q: Pattern)
    ensures Unclaim(n, client, q).1 == if UnclaimRefused(n, q) then Err(ClaimWildcardNotSupported) else Ok(())
    decreases q
  {
    if q != [] && q[0] in n.children { UnclaimResult(n.children[q[0]], client, q[1..]); }
  }

  lemma ViewDrop(n: Trie, client: ClientId)
    ensures View(DropClient(n, client)) == View(n).DropClient(client)
  {
    var f, g := View(DropClient(n, client)), View(n).DropClient(client);
    forall c: ClientId, p ensures SameAt(f, g, c, p) {
      DropPointwise(n, client, c, p);
      assert View(n).Owner(p) == OwnerAt(n, p);
    }
    FlatExtensional(f, g);
  }

  lemma {:induction false} GetOwnerPointwise(n: Trie, p: Pattern)
    ensures GetOwner(n, p) == if Concrete(p) then OwnerAt(n, p) else None
    decreases p
  {
    if p != [] {
      ConcreteTail(p);
      if p[0] in n.children { GetOwnerPointwise(n.children[p[0]], p[1..]); }
    }
  }

  lemma ViewGetOwner(n: Trie, p: Pattern)
    requires WellFormed(View(n))
    ensures GetOwner(n, p) == View(n).Owner(p)
  {
    GetOwnerPointwise(n, p);
  }

  // ---------- What forgetting a client leaves without subscribers ----------

  /** The paths, starting with `path`, at which `client` is the only subscriber. The root itself never counts. */
  function Emptied(n: Trie, client: ClientId, path: Pattern): set<Pattern>
    decreases n, 1
  {
    (if n.subscribers == {client} && path != [] then {path} else {})
    + EmptiedVia(n, client, path, n.children.Keys)
  }

  function EmptiedVia(n: Trie, client: ClientId, path: Pattern, via: set<string>): set<Pattern>
    decreases n, 0
  {
    set k, q | k in via && k in n.children && q in Emptied(n.children[k], client, path + [k]) :: q
  }

  /** The only subscriber at path `p` is `client`. */
  ghost predicate Alone(n: Trie, client: ClientId, p: Pattern) {
    HasSub(n, client, p) && forall c: ClientId | HasSub(n, c, p) :: c == client
  }

  lemma AloneBelow(n: Trie, client: ClientId, p: Pattern)
    requires p != []
    ensures Alone(n, client, p) <==> p[0] in n.children && Alone(n.children[p[0]], client, p[1..])
  {
    assert forall c: ClientId :: HasSub(n, c, p) <==> p[0] in n.children && HasSub(n.children[p[0]], c, p[1..]);
  }

  lemma AloneHere(n: Trie, client: ClientId)
    ensures Alone(n, client, []) <==> n.subscribers == {client}
  {
    assert forall c: ClientId :: HasSub(n, c, []) <==> c in n.subscribers;
    if Alone(n, client, []) {
      forall c ensures c in n.subscribers <==> c in {client} { assert c in n.subscribers ==> HasSub(n, c, []); }
    }
  }

  lemma {:induction false} EmptiedSound(n: Trie, client: ClientId, path: Pattern, q: Pattern)
    requires q in Emptied(n, client, path)
    ensures path <= q && q != [] && Alone(n, client, q[|path|..])
  {
    if n.subscribers == {client} && path != [] && q == path {
      AloneHere(n, client);
    } else {
      var k :| k in n.children && q in Emptied(n.children[k], client, path + [k]);
      EmptiedSound(n.children[k], client, path + [k], q);
      assert path <= path + [k] <= q;
      AloneBelow(n, client, q[|path|..]);
      assert q[|path|..][1..] == q[|path| + 1..] && q[|path|] == (path + [k])[|path|];
    }
  }

  lemma {:induction false} EmptiedComplete(n: Trie, client: ClientId, path: Pattern, p: Pattern)
    requires Alone(n, client, p) && path + p != []
    ensures path + p in Emptied(n, client, path)
    decreases p
  {
    if p == [] {
      AloneHere(n, client);
      assert path + p == path;
    } else {
      AloneBelow(n, client, p);
      EmptiedComplete(n.children[p[0]], client, path + [p[0]], p[1..]);
      assert path + [p[0]] + p[1..] == path + p;
    }
  }

  /** Patterns that `client` holds alone, once every subscription has a pattern. */
  lemma EmptiedExact(n: Trie, client: ClientId)
    requires forall e | e in View(n).subs :: e.1 != []
    ensures Emptied(n, client, []) == View(n).SoleSubscriptions(client)
  {
    var f := View(n);
    forall q ensures q in Emptied(n, client, []) <==> q in f.SoleSubscriptions(client) {
      if q in Emptied(n, client, []) {
        EmptiedSound(n, client, [], q);
        assert q[0..] == q;
        assert (client, q) in f.subs;
        forall o | o in f.subs && o.1 == q ensures o.0 == client { assert o == (o.0, q); }
      }
      if q in f.SoleSubscriptions(client) {
        assert (client, q) in f.subs;
        forall c: ClientId | HasSub(n, c, q) ensures c == client { assert (c, q) in f.subs; }
        EmptiedComplete(n, client, [], q);
        assert [] + q == q;
      }
    }
  }

  // ---------- The search finds exactly the matching subscriptions ----------

  /** A subscription below `n` that matches; `inside` puts the subscribed `**` that leads to `n` back in front. */
  ghost predicate Found(n: Trie, t: Pattern, inside: bool, c: ClientId, p: Pattern) {
    HasSub(n, c, p) && Overlap(if inside then [DOUBLE_WILDCARD] + p else p, t)
  }

  lemma {:induction false} SearchSound(n: Trie, t: Pattern, inside: bool, c: ClientId) returns (p: Pattern)
    requires c in Search(n, t, inside)
    ensures Found(n, t, inside, c, p)
    decreases n, |t| + 1, inside
  {
    if inside {
      if c in Search(n, t, false) {
        p := SearchSound(n, t, false, c);
      } else {
        p := SearchSound(n, t[1..], true, c);
      }
      OverlapDoubleWildcard([DOUBLE_WILDCARD] + p, t);
      assert ([DOUBLE_WILDCARD] + p)[1..] == p;
    } else if t == [] {
      if c in n.subscribers {
        p := [];
        OverlapEmpty();
      } else {
        p := SearchSoundBelow(n, t, DOUBLE_WILDCARD, t, true, c);
      }
    } else if t[0] == DOUBLE_WILDCARD {
      if c in Search(n, t[1..], false) {
        p := SearchSound(n, t[1..], false, c);
        PublishedDoubleWildcard(p, t);
      } else {
        var k :| k in n.children && c in Search(n.children[k], t, false);
        p := SearchSoundBelow(n, t, k, t, false, c);
      }
    } else if t[0] == WILDCARD {
      var k :| k in n.children && c in SearchUnder(n, k, t);
      if k == DOUBLE_WILDCARD {
        p := SearchSoundBelow(n, t, k, t, true, c);
      } else {
        p := SearchSoundBelow(n, t, k, t[1..], false, c);
      }
    } else if t[0] in n.children && c in Search(n.children[t[0]], t[1..], false) {
      p := SearchSoundBelow(n, t, t[0], t[1..], false, c);
    } else if WILDCARD in n.children && c in Search(n.children[WILDCARD], t[1..], false) {
      p := SearchSoundBelow(n, t, WILDCARD, t[1..], false, c);
    } else {
      p := SearchSoundBelow(n, t, DOUBLE_WILDCARD, t, true, c);
    }
  }

  /** The search may step from `n` with topic `t` to child `k` with topic `u` and flag `inside`. */
  predicate Step(t: Pattern, k: string, u: Pattern, inside: bool) {
    if inside then k == DOUBLE_WILDCARD && u == t && (t == [] || t[0] != DOUBLE_WILDCARD)
    else t != [] && if t[0] == DOUBLE_WILDCARD then u == t
                    else k != DOUBLE_WILDCARD && u == t[1..] && (t[0] == WILDCARD || k == WILDCARD || k == t[0])
  }

  lemma SearchSoundBelow(n: Trie, t: Pattern, k: string, u: Pattern, inside: bool, c: ClientId) returns (p: Pattern)
    requires k in n.children && Step(t, k, u, inside) && c in Search(n.children[k], u, inside)
    ensures Found(n, t, false, c, p)
    decreases n, 0
  {
    var q := SearchSound(n.children[k], u, inside, c);
    p := [k] + q;
    assert p[1..] == q;
    StepOverlap(t, k, u, inside, q);
  }

  /** Stepping to a child keeps the overlap, in both directions. */
  lemma StepOverlap(t: Pattern, k: string, u: Pattern, inside: bool, q: Pattern)
    requires Step(t, k, u, inside)
    ensures Overlap(if inside then [DOUBLE_WILDCARD] + q else q, u) ==> Overlap([k] + q, t)
    ensures (t != [] && t[0] != DOUBLE_WILDCARD) || inside ==>
              Overlap([k] + q, t) ==> Overlap(if inside then [DOUBLE_WILDCARD] + q else q, u)
  {
    assert ([k] + q)[1..] == q;
    if !inside {
      if t[0] == DOUBLE_WILDCARD { PublishedDoubleWildcard([k] + q, t); } else { OverlapHeads([k] + q, t); }
    }
  }

  /** A published `**`, by symmetry. */
  lemma PublishedDoubleWildcard(p: Pattern, t: Pattern)
    requires t != [] && t[0] == DOUBLE_WILDCARD
    ensures Overlap(p, t) <==> Overlap(p, t[1..]) || (p != [] && Overlap(p[1..], t))
  {
    OverlapDoubleWildcard(t, p);
    OverlapSymmetric(p, t);
    OverlapSymmetric(p, t[1..]);
    if p != [] { OverlapSymmetric(p[1..], t); }
  }

  lemma {:induction false} SearchComplete(n: Trie, t: Pattern, inside: bool, c: ClientId, p: Pattern)
    requires Found(n, t, inside, c, p)
    ensures c in Search(n, t, inside)
    decreases n, |t|, inside
  {
    if inside {
      OverlapDoubleWildcard([DOUBLE_WILDCARD] + p, t);
      assert ([DOUBLE_WILDCARD] + p)[1..] == p;
      if Overlap(p, t) { SearchComplete(n, t, false, c, p); } else { SearchComplete(n, t[1..], true, c, p); }
    } else if t != [] && t[0] == DOUBLE_WILDCARD {
      PublishedDoubleWildcard(p, t);
      if Overlap(p, t[1..]) {
        SearchComplete(n, t[1..], false, c, p);
      } else {
        SearchComplete(n.children[p[0]], t, false, c, p[1..]);
      }
    } else if p == [] {
      if t != [] { OverlapHeads(t, p); OverlapSymmetric(p, t); }
    } else {
      var k, q := p[0], p[1..];
      assert p == [k] + q;
      if k == DOUBLE_WILDCARD {
        SearchComplete(n.children[k], t, true, c, q);
        if t != [] && t[0] == WILDCARD { assert c in SearchUnder(n, k, t); }
      } else {
        OverlapHeads(p, t);
        SearchComplete(n.children[k], t[1..], false, c, q);
        if t[0] == WILDCARD { assert c in SearchUnder(n, k, t); }
      }
    }
  }

  /** The main result about the directory: the asymmetric search computes the declarative relation. */
  lemma SearchExact(n: Trie, t: Pattern)
    ensures Search(n, t, false) == View(n).Subscribers(t)
  {
    forall c ensures c in Search(n, t, false) <==> c in View(n).Subscribers(t) {
      if c in Search(n, t, false) {
        var p := SearchSound(n, t, false, c);
        assert (c, p) in View(n).subs;
      }
      if c in View(n).Subscribers(t) {
        var e :| e in View(n).subs && Overlap(e.1, t) && e.0 == c;
        assert e == (c, e.1);
        SearchComplete(n, t, false, c, e.1);
      }
    }
  }

  /** Exchanging the subscribed and the published pattern never changes the answer of the search. */
  lemma SearchSymmetric(c: ClientId, p: Pattern, q: Pattern)
    ensures c in Search(Subscribe(EMPTY, c, p), q, false) <==> c in Search(Subscribe(EMPTY, c, q), p, false)
  {
    ViewEmpty();
    ViewSubscribe(EMPTY, c, p);
    ViewSubscribe(EMPTY, c, q);
    SearchExact(Subscribe(EMPTY, c, p), q);
    SearchExact(Subscribe(EMPTY, c, q), p);
    OverlapSymmetric(p, q);
    assert View(Subscribe(EMPTY, c, p)).subs == {(c, p)} && View(Subscribe(EMPTY, c, q)).subs == {(c, q)};
    SingleSubscription(c, p, q);
    SingleSubscription(c, q, p);
  }

  lemma SingleSubscription(c: ClientId, p: Pattern, q: Pattern)
    ensures c in Flat({(c, p)}, map[]).Subscribers(q) <==> Overlap(p, q)
  {
    assert (c, p) in {(c, p)};
  }

  // ---------- Any sequence of operations ----------

  datatype Operation =
    | DoClaim(client: ClientId, topic: Topic)
    | DoUnclaim(client: ClientId, topic: Topic)
    | DoSubscribe(client: ClientId, topic: Topic)
    | DoUnsubscribe(client: ClientId, topic: Topic)
    | DoDrop(client: ClientId)

  function ApplyToTrie(n: Trie, op: Operation): Trie {
    match op
    case DoClaim(c, t) => Claim(n, c, Segments(t)).0
    case DoUnclaim(c, t) => Unclaim(n, c, Segments(t)).0
    case DoSubscribe(c, t) => Subscribe(n, c, Segments(t))
    case DoUnsubscribe(c, t) => Unsubscribe(n, c, Segments(t))
    case DoDrop(c) => DropClient(n, c)
  }

  function ApplyToFlat(f: Flat, op: Operation): Flat {
    match op
    case DoClaim(c, t) => f.Claim(c, Segments(t)).0
    case DoUnclaim(c, t) => f.Unclaim(c, Segments(t))
    case DoSubscribe(c, t) => f.Subscribe(c, Segments(t))
    case DoUnsubscribe(c, t) => f.Unsubscribe(c, Segments(t))
    case DoDrop(c) => f.DropClient(c)
  }

  function TrieAfter(ops: seq<Operation>): Trie {
    if ops == [] then EMPTY else ApplyToTrie(TrieAfter(ops[..|ops| - 1]), ops[|ops| - 1])
  }

  function FlatAfter(ops: seq<Operation>): Flat {
    if ops == [] then Flat({}, map[]) else ApplyToFlat(FlatAfter(ops[..|ops| - 1]), ops[|ops| - 1])
  }

  lemma WellFormedKept(f: Flat, op: Operation)
    requires WellFormed(f)
    ensures WellFormed(ApplyToFlat(f, op))
  {
    if !op.DoDrop? { SegmentsRoundTrip(op.topic); }
  }

  lemma OperationRefines(n: Trie, op: Operation)
    requires WellFormed(View(n))
    ensures View(ApplyToTrie(n, op)) == ApplyToFlat(View(n), op)
  {
    match op
    case DoClaim(c, t) => ViewClaim(n, c, Segments(t));
    case DoUnclaim(c, t) => ViewUnclaim(n, c, Segments(t));
    case DoSubscribe(c, t) => ViewSubscribe(n, c, Segments(t));
    case DoUnsubscribe(c, t) => ViewUnsubscribe(n, c, Segments(t));
    case DoDrop(c) => ViewDrop(n, c);
  }

  /** Whatever the operations and their order, the trie stands for the flat directory that the same operations
      produce, and a search in it finds exactly the clients with a matching subscription. */
  lemma {:induction false} DirectoryRefinesFlat(ops: seq<Operation>, published: Topic)
    ensures View(TrieAfter(ops)) == FlatAfter(ops)
    ensures WellFormed(FlatAfter(ops))
    ensures Search(TrieAfter(ops), Segments(published), false) == FlatAfter(ops).Subscribers(Segments(published))
    decreases |ops|
  {
    SearchExact(TrieAfter(ops), Segments(published));
    if ops == [] {
      ViewEmpty();
    } else {
      DirectoryRefinesFlat(ops[..|ops| - 1], published);
      OperationRefines(TrieAfter(ops[..|ops| - 1]), ops[|ops| - 1]);
      WellFormedKept(FlatAfter(ops[..|ops| - 1]), ops[|ops| - 1]);
    }
  }
}
