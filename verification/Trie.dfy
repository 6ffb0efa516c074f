/** The directory as a value: a trie whose nodes hold the subscribers and the owner of the topic that the
    path from the root spells, the operations on it, and the flat relation it stands for. */
module Tries {
  import opened Common
  import opened Matching

  type ClientId = nat

  datatype DirectoryError = TopicAlreadyClaimed | ClaimWildcardNotSupported

  datatype Trie = Node(owner: Option<ClientId>, children: map<string, Trie>, subscribers: set<ClientId>)

  const EMPTY: Trie := Node(None, map[], {})

  function ChildOrEmpty(n: Trie, segment: string): Trie {
    if segment in n.children then n.children[segment] else EMPTY
  }

  function WithChild(n: Trie, segment: string, child: Trie): Trie {
    n.(children := n.children[segment := child])
  }

  lemma WithChildTwice(n: Trie, segment: string, a: Trie, b: Trie)
    ensures WithChild(WithChild(n, segment, a), segment, b) == WithChild(n, segment, b)
  {
    assert n.children[segment := a][segment := b] == n.children[segment := b];
  }

  // ---------- Operations, one per directory method ----------

  function Claim(n: Trie, client: ClientId, p: Pattern): (Trie, Result<(), DirectoryError>)
    decreases p
  {
    if p == [] then
      match n.owner
      case Some(owner) => (n, if owner == client then Ok(()) else Err(TopicAlreadyClaimed))
      case None => (n.(owner := Some(client)), Ok(()))
    else if IsWildcard(p[0]) then (n, Err(ClaimWildcardNotSupported))
    else
      var (child, result) := Claim(ChildOrEmpty(n, p[0]), client, p[1..]);
      (WithChild(n, p[0], child), result)
  }

  function Unclaim(n: Trie, client: ClientId, p: Pattern): (Trie, Result<(), DirectoryError>)
    decreases p
  {
    if p == [] then (if n.owner == Some(client) then n.(owner := None) else n, Ok(()))
    else if IsWildcard(p[0]) then (n, Err(ClaimWildcardNotSupported))
    else if p[0] !in n.children then (n, Ok(()))
    else
      var (child, result) := Unclaim(n.children[p[0]], client, p[1..]);
      (WithChild(n, p[0], child), result)
  }

  function GetOwner(n: Trie, p: Pattern): Option<ClientId>
    decreases p
  {
    if p == [] then n.owner
    else if IsWildcard(p[0]) then None
    else if p[0] in n.children then GetOwner(n.children[p[0]], p[1..])
    else None
  }

  function Subscribe(n: Trie, client: ClientId, p: Pattern): Trie
    decreases p
  {
    if p == [] then n.(subscribers := n.subscribers + {client})
    else WithChild(n, p[0], Subscribe(ChildOrEmpty(n, p[0]), client, p[1..]))
  }

  function Unsubscribe(n: Trie, client: ClientId, p: Pattern): Trie
    decreases p
  {
    if p == [] then n.(subscribers := n.subscribers - {client})
    else if p[0] in n.children then
      WithChild(n, p[0], Unsubscribe(n.children[p[0]], client, p[1..]))
    else n
  }

  function DropClient(n: Trie, client: ClientId): Trie {
    Node(
      if n.owner == Some(client) then None else n.owner,
      map k | k in n.children :: DropClient(n.children[k], client),
      n.subscribers - {client})
  }

  /** Who is found from node `n` on, with `t` left to match. With `inside`, the edge into `n` is a `**`, which the
      search may let swallow more of `t`. The measure falls at every call: first the node, then the length of `t`,
      then the flag. */
  function Search(n: Trie, t: Pattern, inside: bool): set<ClientId>
    decreases n, |t|, inside
  {
    if inside then
      Search(n, t, false) + (if t == [] then {} else Search(n, t[1..], true))
    else if t == [] then
      n.subscribers
      + (if DOUBLE_WILDCARD in n.children then Search(n.children[DOUBLE_WILDCARD], t, true) else {})
    else if t[0] == DOUBLE_WILDCARD then
      Search(n, t[1..], false) + SearchThrough(n, n.children.Keys, t)
    else if t[0] == WILDCARD then
      SearchPast(n, n.children.Keys, t)
    else
      (if t[0] in n.children then Search(n.children[t[0]], t[1..], false) else {})
      + (if WILDCARD in n.children then Search(n.children[WILDCARD], t[1..], false) else {})
      + (if DOUBLE_WILDCARD in n.children then Search(n.children[DOUBLE_WILDCARD], t, true) else {})
  }

  /** A published `**` swallows the segments of the children in `via`, one level at a time. */
  function SearchThrough(n: Trie, via: set<string>, t: Pattern): set<ClientId>
    decreases n, 0
  {
    set k, c | k in via && k in n.children && c in Search(n.children[k], t, false) :: c
  }

  /** A published `*` stands for the segment of any child in `via`. */
  function SearchPast(n: Trie, via: set<string>, t: Pattern): set<ClientId>
    requires t != []
    decreases n, 0, 1
  {
    set k, c | k in via && k in n.children && c in SearchUnder(n, k, t) :: c
  }

  function SearchUnder(n: Trie, k: string, t: Pattern): set<ClientId>
    requires k in n.children && t != []
    decreases n, 0, 0
  {
    if k == DOUBLE_WILDCARD then Search(n.children[k], t, true) else Search(n.children[k], t[1..], false)
  }

  lemma SearchNone(n: Trie, t: Pattern)
    ensures SearchThrough(n, {}, t) == {} && (t != [] ==> SearchPast(n, {}, t) == {})
  {}

  lemma SearchOneMore(n: Trie, via: set<string>, k: string, t: Pattern)
    requires k in n.children && t != []
    ensures SearchThrough(n, via + {k}, t) == SearchThrough(n, via, t) + Search(n.children[k], t, false)
    ensures SearchPast(n, via + {k}, t) == SearchPast(n, via, t) + SearchUnder(n, k, t)
  {}
}
