/** The directory as the source has it: nodes that own their children and are updated in place. */
module Directories {
  import opened Common
  import opened Matching
  import opened Tries
  import opened FlatDirectories
  import opened Topics

  class Directory {
    var owner: Option<ClientId>
    var children: map<string, Directory>
    var subscribers: set<ClientId>

    ghost var repr: set<object>
    ghost var trie: Trie

    ghost predicate Valid()
      reads this, repr
      ensures Valid() ==> this in repr
      decreases repr
    {
      && this in repr
      && trie.owner == owner && trie.subscribers == subscribers && trie.children.Keys == children.Keys
      && (forall k | k in children :: ValidChild(children[k], trie.children[k]))
      && (forall j, k | j in children && k in children && j != k :: children[j].repr !! children[k].repr)
    }

    /** `child` is a valid directory that only this node owns, and stands for `t`. */
    ghost predicate ValidChild(child: Directory, t: Trie)
      requires this in repr
      reads this, repr
      decreases repr, 0
    {
      child in repr && child.repr <= repr && this !in child.repr && child.Valid() && child.trie == t
    }

    /** The children are valid, owned by this node alone, and stand for `tries`. */
    ghost predicate OwnsChildren(tries: map<string, Trie>)
      requires this in repr
      reads this, repr
    {
      && tries.Keys == children.Keys
      && (forall k | k in children :: ValidChild(children[k], tries[k]))
      && (forall j, k | j in children && k in children && j != k :: children[j].repr !! children[k].repr)
    }

    constructor ()
      ensures Valid() && fresh(repr) && trie == EMPTY
    {
      owner, children, subscribers := None, map[], {};
      repr, trie := {this}, EMPTY;
    }

    // ---------- What the rest of the bus calls, on the root ----------

    /** A root: its paths spell topics. */
    ghost predicate Rooted()
      reads this, repr
    {
      Valid() && WellFormed(View(trie))
    }

    ghost function Content(): Flat
      reads this
    {
      View(trie)
    }

    method Claim(client: ClientId, topic: Topic) returns (r: Result<(), DirectoryError>)
      requires Rooted()
      modifies repr
      ensures Rooted() && fresh(repr - old(repr))
      ensures (Content(), r) == old(Content()).Claim(client, Segments(topic))
    {
      ViewClaim(trie, client, Segments(topic));
      WellFormedKept(View(trie), DoClaim(client, topic));
      r := ClaimSegments(client, Segments(topic));
    }

    /** The answer for a wildcard topic depends on which nodes the trie happens to have. */
    method Unclaim(client: ClientId, topic: Topic) returns (r: Result<(), DirectoryError>)
      requires Rooted()
      modifies repr
      ensures Rooted() && repr == old(repr)
      ensures Content() == old(Content()).Unclaim(client, Segments(topic))
      ensures r == if UnclaimRefused(old(trie), Segments(topic)) then Err(ClaimWildcardNotSupported) else Ok(())
      ensures r.Err? ==> !Concrete(Segments(topic))
    {
      ViewUnclaim(trie, client, Segments(topic));
      UnclaimPointwise(trie, client, Segments(topic), client, []);
      WellFormedKept(View(trie), DoUnclaim(client, topic));
      r := UnclaimSegments(client, Segments(topic));
    }

    method GetOwner(topic: Topic) returns (r: Option<ClientId>)
      requires Rooted()
      ensures r == Content().Owner(Segments(topic))
    {
      ViewGetOwner(trie, Segments(topic));
      r := GetOwnerSegments(Segments(topic));
    }

    method Subscribe(client: ClientId, topic: Topic)
      requires Rooted()
      modifies repr
      ensures Rooted() && fresh(repr - old(repr))
      ensures Content() == old(Content()).Subscribe(client, Segments(topic))
    {
      ViewSubscribe(trie, client, Segments(topic));
      WellFormedKept(View(trie), DoSubscribe(client, topic));
      SubscribeSegments(client, Segments(topic));
    }

    method Unsubscribe(client: ClientId, topic: Topic)
      requires Rooted()
      modifies repr
      ensures Rooted() && repr == old(repr)
      ensures Content() == old(Content()).Unsubscribe(client, Segments(topic))
    {
      ViewUnsubscribe(trie, client, Segments(topic));
      WellFormedKept(View(trie), DoUnsubscribe(client, topic));
      UnsubscribeSegments(client, Segments(topic));
    }

    /** Every matching client once, in whatever order the set yields them. */
    method GetSubscribers(topic: Topic) returns (clients: seq<ClientId>)
      requires Rooted()
      ensures Lists(clients, Content().Subscribers(Segments(topic)))
    {
      SearchExact(trie, Segments(topic));
      var found := CollectSubscribers(Segments(topic), {}, false);
      clients := Drain(found);
    }

    /** Forget a client; the topics it alone was subscribed to come back as they were subscribed. */
    method DropClient(client: ClientId) returns (topics: seq<Topic>)
      requires Rooted()
      modifies repr
      ensures Rooted() && repr == old(repr)
      ensures Content() == old(Content()).DropClient(client)
      ensures Distinct(topics)
      ensures forall t: Topic :: t in topics <==> Segments(t) in old(Content()).SoleSubscriptions(client)
    {
      ViewDrop(trie, client);
      EmptiedExact(trie, client);
      WellFormedKept(View(trie), DoDrop(client));
      ghost var sole := Content().SoleSubscriptions(client);
      topics := DropClientBelow(client, [], []);
      forall t: Topic ensures t in topics <==> Segments(t) in sole {
        if Segments(t) in sole {
          assert Segments(t) in Patterns(topics);
          var u :| u in topics && Segments(u) == Segments(t);
          SegmentsInjective(t, u);
        }
      }
    }

    // ---------- The operations on segments ----------

    method EnsureChild(name: string)
      requires Valid()
      modifies this
      ensures Valid() && fresh(repr - old(repr)) && name in children
      ensures forall k | k in old(children) :: k in children && children[k] == old(children)[k]
      ensures name !in old(children) ==> fresh(children[name].repr)
      ensures trie == WithChild(old(trie), name, ChildOrEmpty(old(trie), name))
    {
      if name !in children {
        var child := new Directory();
        children := children[name := child];
        repr := repr + child.repr;
        trie := WithChild(trie, name, EMPTY);
      } else {
        ChildAlready(trie, name);
      }
    }

    method ClaimSegments(client: ClientId, topic: Pattern) returns (r: Result<(), DirectoryError>)
      requires Valid()
      modifies repr
      ensures Valid() && fresh(repr - old(repr))
      ensures (trie, r) == Tries.Claim(old(trie), client, topic)
      decreases topic, 0
    {
      if topic == [] {
        if owner.Some? {
          return if owner.value == client then Ok(()) else Err(TopicAlreadyClaimed);
        }
        owner := Some(client);
        trie := trie.(owner := owner);
        return Ok(());
      }
      if IsWildcard(topic[0]) {
        return Err(ClaimWildcardNotSupported);
      }
      EnsureChild(topic[0]);
      r := ClaimInChild(client, topic[0], topic[1..]);
      WithChildTwice(old(trie), topic[0], ChildOrEmpty(old(trie), topic[0]), trie.children[topic[0]]);
    }

    method ClaimInChild(client: ClientId, name: string, topic: Pattern) returns (r: Result<(), DirectoryError>)
      requires Valid() && name in children
      modifies repr
      ensures Valid() && fresh(repr - old(repr))
      ensures var (child, result) := Tries.Claim(old(trie.children[name]), client, topic);
              trie == WithChild(old(trie), name, child) && r == result
      decreases topic, 1
    {
      label before:
      r := children[name].ClaimSegments(client, topic);
      SiblingsKept@before(name);
      Adopt(name);
    }

    method UnclaimSegments(client: ClientId, topic: Pattern) returns (r: Result<(), DirectoryError>)
      requires Valid()
      modifies repr
      ensures Valid() && repr == old(repr)
      ensures (trie, r) == Tries.Unclaim(old(trie), client, topic)
      decreases topic
    {
      if topic == [] {
        if owner == Some(client) {
          owner := None;
          trie := trie.(owner := None);
        }
        return Ok(());
      }
      if IsWildcard(topic[0]) {
        return Err(ClaimWildcardNotSupported);
      }
      if topic[0] !in children {
        return Ok(());
      }
      label before:
      r := children[topic[0]].UnclaimSegments(client, topic[1..]);
      SiblingsKept@before(topic[0]);
      Adopt(topic[0]);
    }

    method GetOwnerSegments(topic: Pattern) returns (r: Option<ClientId>)
      requires Valid()
      ensures r == Tries.GetOwner(trie, topic)
      decreases topic
    {
      if topic == [] {
        return owner;
      }
      if IsWildcard(topic[0]) {
        return None;
      }
      if topic[0] in children {
        r := children[topic[0]].GetOwnerSegments(topic[1..]);
        return;
      }
      return None;
    }

    method SubscribeSegments(client: ClientId, topic: Pattern)
      requires Valid()
      modifies repr
      ensures Valid() && fresh(repr - old(repr))
      ensures trie == Tries.Subscribe(old(trie), client, topic)
      decreases topic, 0
    {
      if topic == [] {
        subscribers := subscribers + {client};
        trie := trie.(subscribers := subscribers);
        return;
      }
      EnsureChild(topic[0]);
      SubscribeInChild(client, topic[0], topic[1..]);
      WithChildTwice(old(trie), topic[0], ChildOrEmpty(old(trie), topic[0]), trie.children[topic[0]]);
    }

    method SubscribeInChild(client: ClientId, name: string, topic: Pattern)
      requires Valid() && name in children
      modifies repr
      ensures Valid() && fresh(repr - old(repr))
      ensures trie == WithChild(old(trie), name, Tries.Subscribe(old(trie.children[name]), client, topic))
      decreases topic, 1
    {
      label before:
      children[name].SubscribeSegments(client, topic);
      SiblingsKept@before(name);
      Adopt(name);
    }

    method UnsubscribeSegments(client: ClientId, topic: Pattern)
      requires Valid()
      modifies repr
      ensures Valid() && repr == old(repr)
      ensures trie == Tries.Unsubscribe(old(trie), client, topic)
      decreases topic
    {
      if topic == [] {
        subscribers := subscribers - {client};
        trie := trie.(subscribers := subscribers);
        return;
      }
      if topic[0] in children {
        label before:
        children[topic[0]].UnsubscribeSegments(client, topic[1..]);
        SiblingsKept@before(topic[0]);
        Adopt(topic[0]);
      }
    }

    /** The source's search, filling one shared set from loops over the children. */
    method CollectSubscribers(topic: Pattern, found: set<ClientId>, inside: bool) returns (all: set<ClientId>)
      requires Valid()
      ensures all == found + Search(trie, topic, inside)
      decreases repr, |topic|, inside
    {
      all := found;
      if inside {
        all := CollectSubscribers(topic, all, false);
        if topic != [] {
          all := CollectSubscribers(topic[1..], all, true);
        }
        return;
      }
      if topic == [] {
        all := all + subscribers;
        if DOUBLE_WILDCARD in children {
          all := children[DOUBLE_WILDCARD].CollectSubscribers(topic, all, true);
        }
        return;
      }
      if topic[0] == DOUBLE_WILDCARD {
        all := CollectSubscribers(topic[1..], all, false);
        all := CollectThrough(topic, all);
        return;
      }
      if topic[0] == WILDCARD {
        all := CollectPast(topic, all);
        return;
      }
      if topic[0] in children {
        all := children[topic[0]].CollectSubscribers(topic[1..], all, false);
      }
      if WILDCARD in children {
        all := children[WILDCARD].CollectSubscribers(topic[1..], all, false);
      }
      if DOUBLE_WILDCARD in children {
        all := children[DOUBLE_WILDCARD].CollectSubscribers(topic, all, true);
      }
    }

    /** Its loop for a published `**` ... */
    method CollectThrough(topic: Pattern, found: set<ClientId>) returns (all: set<ClientId>)
      requires Valid() && topic != []
      ensures all == found + SearchThrough(trie, trie.children.Keys, topic)
      decreases repr, 0
    {
      SearchNone(trie, topic);
      hide Search, SearchThrough, SearchPast;
      all := found;
      var rest := children.Keys;
      ghost var done := {};
      while rest != {}
        invariant rest <= children.Keys && done == children.Keys - rest
        invariant all == found + SearchThrough(trie, done, topic)
      {
        var k :| k in rest;
        SearchOneMore(trie, done, k, topic);
        all := children[k].CollectSubscribers(topic, all, false);
        rest, done := rest - {k}, done + {k};
      }
      assert done == trie.children.Keys;
    }

    /** ... and for a published `*`. */
    method CollectPast(topic: Pattern, found: set<ClientId>) returns (all: set<ClientId>)
      requires Valid() && topic != []
      ensures all == found + SearchPast(trie, trie.children.Keys, topic)
      decreases repr, 0
    {
      SearchNone(trie, topic);
      hide Search, SearchThrough, SearchPast;
      all := found;
      var rest := children.Keys;
      ghost var done := {};
      while rest != {}
        invariant rest <= children.Keys && done == children.Keys - rest
        invariant all == found + SearchPast(trie, done, topic)
      {
        var k :| k in rest;
        SearchOneMore(trie, done, k, topic);
        if k == DOUBLE_WILDCARD {
          all := children[k].CollectSubscribers(topic, all, true);
        } else {
          all := children[k].CollectSubscribers(topic[1..], all, false);
        }
        rest, done := rest - {k}, done + {k};
      }
      assert done == trie.children.Keys;
    }

    /** The source's traversal that forgets one client and reports the topics this leaves without subscribers. */
    method DropClientBelow(client: ClientId, path: Pattern, results: seq<Topic>) returns (all: seq<Topic>)
      requires Valid() && MayReport(Emptied(trie, client, path), results)
      modifies repr
      ensures Valid() && repr == old(repr)
      ensures trie == Tries.DropClient(old(trie), client)
      ensures Distinct(all) && Patterns(all) == Patterns(results) + Emptied(old(trie), client, path)
      decreases repr, 2
    {
      hide Emptied, MayReport, Reported, Tries.DropClient;
      all := DropFromNode(client, path, results);
      all := DropFromChildren(client, path, results, all);
      ReportedAll(trie, client, path, results, all);
      StandFor(Tries.DropClient(trie, client));
    }

    /** From now on this node stands for `t`, as its fields and children already do. */
    ghost method StandFor(t: Trie)
      requires this in repr && t.owner == owner && t.subscribers == subscribers && OwnsChildren(t.children)
      modifies this`trie
      ensures Valid() && trie == t
    {
      trie := t;
    }

    /** Its part that looks at this node only ... */
    method DropFromNode(client: ClientId, path: Pattern, results: seq<Topic>) returns (all: seq<Topic>)
      requires Valid() && MayReport(Emptied(trie, client, path), results)
      modifies this`owner, this`subscribers
      ensures owner == Tries.DropClient(trie, client).owner
      ensures subscribers == Tries.DropClient(trie, client).subscribers
      ensures OwnsChildren(trie.children)
      ensures Reported(trie, client, path, results, {}, all)
    {
      hide Emptied, MayReport, Reported;
      all := results;
      if owner == Some(client) {
        owner := None;
      }
      var was := client in subscribers;
      subscribers := subscribers - {client};
      if was && subscribers == {} {
        HereIsTopic(trie, client, path, results);
        var topic := FromValidSegments(path);
        if topic.Some? {
          all := all + [topic.value];
        }
      }
      ReportNode(trie, client, path, results, all);
    }

    /** ... and its loop over the children. */
    method DropFromChildren(client: ClientId, path: Pattern, ghost results: seq<Topic>, soFar: seq<Topic>)
      returns (all: seq<Topic>)
      requires this in repr && OwnsChildren(trie.children)
      requires MayReport(Emptied(trie, client, path), results)
      requires Reported(trie, client, path, results, {}, soFar)
      modifies repr - {this}
      ensures OwnsChildren(Tries.DropClient(trie, client).children)
      ensures Reported(trie, client, path, results, children.Keys, all)
      decreases repr, 1
    {
      hide Emptied, MayReport, Reported, PartlyDropped, Tries.DropClient;
      all := soFar;
      var rest := children.Keys;
      ghost var done := {};
      NoneDropped(trie, client);
      while rest != {}
        invariant rest <= children.Keys && done == children.Keys - rest
        invariant OwnsChildren(PartlyDropped(trie, client, done))
        invariant Reported(trie, client, path, results, done, all)
      {
        var k :| k in rest;
        all := DropFromChild(k, client, path, results, done, all);
        OneFewer(children.Keys, rest, k);
        rest, done := rest - {k}, done + {k};
      }
      assert done == children.Keys;
      AllDropped(trie, client);
    }

    method DropFromChild(k: string, client: ClientId, path: Pattern, ghost results: seq<Topic>, ghost done: set<string>,
                         soFar: seq<Topic>) returns (all: seq<Topic>)
      requires this in repr && OwnsChildren(PartlyDropped(trie, client, done)) && k in children && k !in done
      requires MayReport(Emptied(trie, client, path), results)
      requires Reported(trie, client, path, results, done, soFar)
      modifies repr - {this}
      ensures OwnsChildren(PartlyDropped(trie, client, done + {k}))
      ensures Reported(trie, client, path, results, done + {k}, all)
      decreases repr, 0
    {
      hide Emptied, MayReport, Reported, PartlyDropped, Tries.DropClient;
      OneMoreDropped(trie, client, done, k);
      MayReportChild(trie, client, path, results, done, k, soFar);
      label before:
      all := children[k].DropClientBelow(client, path + [k], soFar);
      SiblingsKept@before(k);
      ReportChild(trie, client, path, results, done, k, soFar, all);
    }

    /** While one child changes itself, and perhaps grows, its siblings stay as they are. */
    twostate lemma SiblingsKept(name: string)
      requires old(this in repr) && name in children && unchanged(this)
      requires old(forall k | k in children :: ValidChild(children[k], children[k].trie))
      requires old(forall j, k | j in children && k in children && j != k :: children[j].repr !! children[k].repr)
      requires forall o | o in old(repr) - old(children[name].repr) :: unchanged(o)
      requires fresh(children[name].repr - old(children[name].repr))
      ensures forall k | k in children && k != name :: ValidChild(children[k], old(children[k].trie))
      ensures forall k | k in children && k != name :: children[k].repr !! children[name].repr
      ensures forall j, k | j in children && k in children && j != k && j != name && k != name ::
                children[j].repr !! children[k].repr
    {
      forall k | k in children && k != name
        ensures ValidChild(children[k], old(children[k].trie)) && children[k].repr == old(children[k].repr)
        ensures children[k].repr !! children[name].repr
      {
        var child := children[k];
        assert old(ValidChild(child, child.trie));
        assert child in old(child.repr);
        assert old(child.repr) !! old(children[name].repr);
        assert child in old(repr) - old(children[name].repr);
        assert old(child.repr) <= old(repr) - old(children[name].repr);
      }
    }

    /** Ghost bookkeeping after that. */
    ghost method Adopt(name: string)
      requires this in repr && name in children
      requires trie.owner == owner && trie.subscribers == subscribers && trie.children.Keys == children.Keys
      requires forall k | k in children && k != name :: ValidChild(children[k], trie.children[k])
      requires forall j, k | j in children && k in children && j != k :: children[j].repr !! children[k].repr
      requires children[name].Valid() && this !in children[name].repr
      modifies this
      ensures Valid() && repr == old(repr) + children[name].repr
      ensures owner == old(owner) && children == old(children) && subscribers == old(subscribers)
      ensures trie == WithChild(old(trie), name, children[name].trie)
    {
      repr := repr + children[name].repr;
      trie := WithChild(trie, name, children[name].trie);
    }
  }

  method Drain(elements: set<ClientId>) returns (listed: seq<ClientId>)
    ensures Lists(listed, elements)
  {
    listed := [];
    var rest := elements;
    while rest != {}
      invariant rest <= elements
      invariant Lists(listed, elements - rest)
    {
      var x :| x in rest;
      assert x !in Elements(listed);
      assert Elements(listed + [x]) == Elements(listed) + {x};
      listed := listed + [x];
      rest := rest - {x};
    }
  }

  /** The children's tries while a drop is under way: those in `done` have been visited. */
  ghost function PartlyDropped(n: Trie, client: ClientId, done: set<string>): map<string, Trie> {
    map k | k in n.children :: if k in done then Tries.DropClient(n.children[k], client) else n.children[k]
  }

  // ---------- What the traversal has reported so far ----------

  lemma ChildAlready(n: Trie, name: string)
    requires name in n.children
    ensures WithChild(n, name, ChildOrEmpty(n, name)) == n
  {
    assert n.children[name := n.children[name]] == n.children;
  }

  lemma OneFewer(names: set<string>, rest: set<string>, k: string)
    requires k in rest && rest <= names
    ensures names - (rest - {k}) == (names - rest) + {k}
  {}

  lemma NoneDropped(n: Trie, client: ClientId)
    ensures PartlyDropped(n, client, {}) == n.children
  {}

  lemma OneMoreDropped(n: Trie, client: ClientId, done: set<string>, k: string)
    requires k in PartlyDropped(n, client, done) && k !in done
    ensures var was, now := PartlyDropped(n, client, done), PartlyDropped(n, client, done + {k});
            && was.Keys == now.Keys == n.children.Keys
            && was[k] == n.children[k] && now[k] == Tries.DropClient(n.children[k], client)
            && forall j | j in was && j != k :: now[j] == was[j]
  {}

  lemma AllDropped(n: Trie, client: ClientId)
    ensures PartlyDropped(n, client, n.children.Keys) == Tries.DropClient(n, client).children
  {}

  /** Every path still to be reported is a topic's, and none has been reported yet. */
  ghost predicate MayReport(emptied: set<Pattern>, results: seq<Topic>) {
    (forall q | q in emptied :: IsTopicPattern(q)) && Distinct(results) && Patterns(results) !! emptied
  }

  /** The traversal of `n` has reported the node itself and the children in `done`. */
  ghost predicate Reported(n: Trie, client: ClientId, path: Pattern, results: seq<Topic>, done: set<string>,
                           all: seq<Topic>) {
    && Distinct(all)
    && Patterns(all) == Patterns(results) + (Emptied(n, client, path) - Remaining(n, client, path, done))
  }

  /** What the children outside `done` will add. */
  ghost function Remaining(n: Trie, client: ClientId, path: Pattern, done: set<string>): set<Pattern> {
    EmptiedVia(n, client, path, n.children.Keys - done)
  }

  /** A child reports only paths through itself, so nothing twice. */
  lemma ChildPaths(n: Trie, client: ClientId, path: Pattern, k: string, q: Pattern)
    requires k in n.children && q in Emptied(n.children[k], client, path + [k])
    ensures |path| < |q| && q[|path|] == k && q in Emptied(n, client, path)
  {
    EmptiedSound(n.children[k], client, path + [k], q);
    assert q[|path|] == (path + [k])[|path|];
  }

  lemma HereIsTopic(n: Trie, client: ClientId, path: Pattern, results: seq<Topic>)
    requires MayReport(Emptied(n, client, path), results) && n.subscribers == {client}
    ensures path != [] ==> IsTopicPattern(path)
  {
    assert path != [] ==> path in Emptied(n, client, path);
  }

  lemma ReportNode(n: Trie, client: ClientId, path: Pattern, results: seq<Topic>, all: seq<Topic>)
    requires MayReport(Emptied(n, client, path), results)
    requires if n.subscribers == {client} && path != []
             then IsTopicPattern(path) && all == results + [FromSegments(path)] else all == results
    ensures Reported(n, client, path, results, {}, all)
  {
    forall q | q in Remaining(n, client, path, {}) ensures q != path {
      var k :| k in n.children && q in Emptied(n.children[k], client, path + [k]);
      ChildPaths(n, client, path, k, q);
    }
    if all != results { assert path in Emptied(n, client, path); }
  }

  lemma ReportedAll(n: Trie, client: ClientId, path: Pattern, results: seq<Topic>, all: seq<Topic>)
    requires Reported(n, client, path, results, n.children.Keys, all)
    ensures Distinct(all) && Patterns(all) == Patterns(results) + Emptied(n, client, path)
  {
    assert Remaining(n, client, path, n.children.Keys) == {};
  }

  lemma MayReportChild(n: Trie, client: ClientId, path: Pattern, results: seq<Topic>, done: set<string>, k: string,
                       all: seq<Topic>)
    requires MayReport(Emptied(n, client, path), results)
    requires Reported(n, client, path, results, done, all) && k in n.children && k !in done
    ensures MayReport(Emptied(n.children[k], client, path + [k]), all)
  {
    forall q | q in Emptied(n.children[k], client, path + [k])
      ensures IsTopicPattern(q) && q !in Patterns(all)
    {
      ChildPaths(n, client, path, k, q);
      assert q in Remaining(n, client, path, done);
    }
  }

  lemma ReportChild(n: Trie, client: ClientId, path: Pattern, results: seq<Topic>, done: set<string>, k: string,
                    before: seq<Topic>, all: seq<Topic>)
    requires Reported(n, client, path, results, done, before) && k in n.children && k !in done
    requires Distinct(all) && Patterns(all) == Patterns(before) + Emptied(n.children[k], client, path + [k])
    ensures Reported(n, client, path, results, done + {k}, all)
  {
    var here, after, part := Remaining(n, client, path, done), Remaining(n, client, path, done + {k}),
      Emptied(n.children[k], client, path + [k]);
    forall q | q in part ensures q in here && q in Emptied(n, client, path) && q !in after {
      ChildPaths(n, client, path, k, q);
      if q in after {
        var j :| j in n.children.Keys - (done + {k}) && q in Emptied(n.children[j], client, path + [j]);
        ChildPaths(n, client, path, j, q);
      }
    }
    assert here == after + part;
  }
}
