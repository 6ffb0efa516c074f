/** Topic patterns and what it means for two of them to match.

    A pattern is a sequence of segments. The segment `*` stands for exactly one word and `**` for any
    number of words, including none; every other segment stands for itself. Wildcards may appear on both
    the subscribed and the published side, so matching is an overlap of two languages. */
module Matching {
  const WILDCARD: string := "*"
  const DOUBLE_WILDCARD: string := "**"

  type Pattern = seq<string>

  predicate IsWildcard(segment: string) {
    segment == WILDCARD || segment == DOUBLE_WILDCARD
  }

  /** No segment is a wildcard, so the pattern denotes itself alone. */
  predicate Concrete(p: Pattern) {
    forall i | 0 <= i < |p| :: !IsWildcard(p[i])
  }

  /** The language of a pattern: `words` is one of the segment sequences that `p` stands for. */
  predicate Accepts(p: Pattern, words: seq<string>)
    decreases |p| + |words|
  {
    if p == [] then words == []
    else if p[0] == DOUBLE_WILDCARD then
      Accepts(p[1..], words) || (words != [] && Accepts(p, words[1..]))
    else
      words != [] && (p[0] == WILDCARD || p[0] == words[0]) && Accepts(p[1..], words[1..])
  }

  /** Two patterns match when some wildcard-free segment sequence belongs to both languages. */
  ghost predicate Overlap(p: Pattern, q: Pattern) {
    exists words :: InBoth(p, q, words)
  }

  ghost predicate InBoth(p: Pattern, q: Pattern, words: seq<string>) {
    Concrete(words) && Accepts(p, words) && Accepts(q, words)
  }

  lemma OverlapIntro(p: Pattern, q: Pattern, words: seq<string>)
    requires InBoth(p, q, words)
    ensures Overlap(p, q) && Overlap(q, p)
  {
    assert InBoth(q, p, words);
  }

  lemma OverlapSymmetric(p: Pattern, q: Pattern)
    ensures Overlap(p, q) <==> Overlap(q, p)
  {
    if words :| InBoth(p, q, words) { OverlapIntro(p, q, words); }
    if words :| InBoth(q, p, words) { OverlapIntro(q, p, words); }
  }

  /** A concrete pattern accepts exactly itself. */
  lemma {:induction false} ConcreteAcceptsItself(p: Pattern, words: seq<string>)
    requires Concrete(p)
    ensures Accepts(p, words) <==> p == words
  {
    if p != [] && words != [] {
      ConcreteAcceptsItself(p[1..], words[1..]);
      assert p == [p[0]] + p[1..] && words == [words[0]] + words[1..];
    }
  }

  /** A concrete pattern matches exactly the patterns whose language it belongs to. */
  lemma OverlapConcrete(p: Pattern, q: Pattern)
    requires Concrete(p)
    ensures Overlap(p, q) <==> Accepts(q, p)
  {
    ConcreteAcceptsItself(p, p);
    if words :| InBoth(p, q, words) {
      ConcreteAcceptsItself(p, words);
    }
    if Accepts(q, p) { OverlapIntro(p, q, p); }
  }

  // ---------- The equations that a left-to-right search may use ----------

  /** A word that the single, non-`**` segment `s` stands for. */
  function WordFor(s: string): string {
    if IsWildcard(s) then "a" else s
  }

  /** A `**` may absorb the next segment of the other side, whatever that segment is. */
  lemma AbsorbSegment(p: Pattern, q: Pattern)
    requires p != [] && p[0] == DOUBLE_WILDCARD && q != []
    requires Overlap(p, q[1..])
    ensures Overlap(p, q)
  {
    var words :| InBoth(p, q[1..], words);
    if q[0] == DOUBLE_WILDCARD {
      OverlapIntro(p, q, words);
    } else {
      var more := [WordFor(q[0])] + words;
      assert more[1..] == words;
      OverlapIntro(p, q, more);
    }
  }

  /** The converse: the `**` either stops here or absorbs the whole next segment. */
  lemma {:induction false} StopOrAbsorb(p: Pattern, q: Pattern, words: seq<string>)
    requires p != [] && p[0] == DOUBLE_WILDCARD
    requires InBoth(p, q, words)
    ensures Overlap(p[1..], q) || (q != [] && Overlap(p, q[1..]))
    decreases |words|
  {
    if Accepts(p[1..], words) {
      OverlapIntro(p[1..], q, words);
    } else if q[0] == DOUBLE_WILDCARD {
      if Accepts(q[1..], words) {
        OverlapIntro(p, q[1..], words);
      } else {
        StopOrAbsorb(p, q, words[1..]);
      }
    } else {
      OverlapIntro(p, q[1..], words[1..]);
    }
  }

  /** A leading `**` on one side: it matches no further segment, or swallows one segment of the other side. */
  lemma OverlapDoubleWildcard(p: Pattern, q: Pattern)
    requires p != [] && p[0] == DOUBLE_WILDCARD
    ensures Overlap(p, q) <==> Overlap(p[1..], q) || (q != [] && Overlap(p, q[1..]))
  {
    if words :| InBoth(p, q, words) { StopOrAbsorb(p, q, words); }
    if words :| InBoth(p[1..], q, words) { OverlapIntro(p, q, words); }
    if q != [] && Overlap(p, q[1..]) { AbsorbSegment(p, q); }
  }

  /** Heads other than `**`: they must be able to name one common word. */
  lemma OverlapHeads(p: Pattern, q: Pattern)
    requires p != [] && p[0] != DOUBLE_WILDCARD
    requires q == [] || q[0] != DOUBLE_WILDCARD
    ensures Overlap(p, q) <==>
              q != [] && (p[0] == WILDCARD || q[0] == WILDCARD || p[0] == q[0]) && Overlap(p[1..], q[1..])
  {
    if words :| InBoth(p, q, words) {
      OverlapIntro(p[1..], q[1..], words[1..]);
    }
    if q != [] && (p[0] == WILDCARD || q[0] == WILDCARD || p[0] == q[0]) && Overlap(p[1..], q[1..]) {
      var words :| InBoth(p[1..], q[1..], words);
      var more := [if p[0] == WILDCARD then WordFor(q[0]) else p[0]] + words;
      assert more[1..] == words;
      OverlapIntro(p, q, more);
    }
  }

  lemma OverlapEmpty()
    ensures Overlap([], [])
  {
    OverlapIntro([], [], []);
  }
}
