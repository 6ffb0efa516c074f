/** Paths and topics: what is valid, how they are parsed, printed, split into segments and put together again. */
module Topics {
  import opened Common
  import opened Matching
  import opened Regexes

  const PROTOCOL_SEPARATOR: char := ':'
  const PATH_SEPARATOR: char := '/'

  predicate IsWordChar(c: char) {
    'a' <= c <= 'z' || '0' <= c <= '9' || c == '_'
  }

  ghost const WORD_CHARS: set<char> := set c: char | IsWordChar(c)

  // The two anchored expressions of the source, symbol by symbol.
  ghost const SEGMENT: Regex := Alt(Plus(Chars(WORD_CHARS)), Alt(Lit('*'), Cat(Lit('*'), Lit('*'))))
  ghost const RGX_PATH: Regex := Cat(Star(Cat(SEGMENT, Lit(PATH_SEPARATOR))), SEGMENT)
  ghost const RGX_PROTOCOL: Regex := Alt(Plus(Chars(WORD_CHARS)), Lit('*'))

  // ---------- The same language, by splitting ----------

  predicate IsWord(s: string) {
    |s| > 0 && forall i | 0 <= i < |s| :: IsWordChar(s[i])
  }

  predicate IsSegment(s: string) {
    IsWord(s) || IsWildcard(s)
  }

  predicate IsProtocol(s: string) {
    IsWord(s) || s == WILDCARD
  }

  /** A word consists of these characters. */
  lemma WordAlphabet(s: string)
    ensures IsWord(s) <==> s != "" && forall c | c in s :: c in "abcdefghijklmnopqrstuvwxyz0123456789_"
  {
    assert forall c: char :: IsWordChar(c) <==> c in "abcdefghijklmnopqrstuvwxyz0123456789_";
  }

  /** Splitting at every separator, as `str::split` does: an empty string has one, empty, piece. */
  function Split(s: string): (pieces: seq<string>)
    ensures |pieces| > 0
  {
    if s == "" then [""]
    else
      var rest := Split(s[1..]);
      if s[0] == PATH_SEPARATOR then [""] + rest
      else [[s[0]] + rest[0]] + rest[1..]
  }

  function Join(segments: seq<string>): string {
    if segments == [] then ""
    else if |segments| == 1 then segments[0]
    else segments[0] + [PATH_SEPARATOR] + Join(segments[1..])
  }

  predicate AllSegments(pieces: seq<string>) {
    forall i | 0 <= i < |pieces| :: IsSegment(pieces[i])
  }

  predicate IsPath(s: string) {
    s == "" || AllSegments(Split(s))
  }

  lemma SegmentRegex(s: string)
    ensures Matches(SEGMENT, s) <==> IsSegment(s)
    ensures Matches(RGX_PROTOCOL, s) <==> IsProtocol(s)
  {
    PlusOfChars(WORD_CHARS, s);
    MatchesLit('*', s);
    StarStar(s);
  }

  lemma StarStar(s: string)
    ensures Matches(Cat(Lit('*'), Lit('*')), s) <==> s == DOUBLE_WILDCARD
  {
    ThenLit(Lit('*'), '*', s);
    if s != "" { MatchesLit('*', s[..|s| - 1]); }
    hide Matches;
  }

  /** Prefixing a piece that holds no separator. */
  lemma {:induction false} SplitPrefix(piece: string, rest: string)
    requires PATH_SEPARATOR !in piece
    ensures Split(piece) == [piece]
    ensures Split(piece + [PATH_SEPARATOR] + rest) == [piece] + Split(rest)
  {
    var s := piece + [PATH_SEPARATOR] + rest;
    if piece == "" {
      assert s[1..] == rest;
    } else {
      SplitPrefix(piece[1..], rest);
      assert s[1..] == piece[1..] + [PATH_SEPARATOR] + rest;
      assert [piece[0]] + piece[1..] == piece;
      assert Split(s) == [[s[0]] + Split(s[1..])[0]] + Split(s[1..])[1..];
    }
  }

  /** The first piece, and what follows its separator. */
  lemma {:induction false} SplitFirst(s: string) returns (k: nat)
    ensures k <= |s| && PATH_SEPARATOR !in s[..k]
    ensures k < |s| ==> s[k] == PATH_SEPARATOR && s == s[..k] + [PATH_SEPARATOR] + s[k + 1..]
    ensures k < |s| ==> Split(s) == [s[..k]] + Split(s[k + 1..])
    ensures k == |s| ==> Split(s) == [s]
  {
    if s == "" || s[0] == PATH_SEPARATOR {
      k := 0;
    } else {
      var j := SplitFirst(s[1..]);
      k := j + 1;
      assert s[..k] == [s[0]] + s[1..][..j];
      if k == |s| { assert s[..k] == s; }
      else { assert s[k + 1..] == s[1..][j + 1..]; }
    }
    if k < |s| { SplitPrefix(s[..k], s[k + 1..]); } else { assert s[..k] == s; SplitPrefix(s, ""); }
  }

  lemma SegmentHasNoSeparator(s: string)
    requires IsSegment(s)
    ensures PATH_SEPARATOR !in s && PROTOCOL_SEPARATOR !in s && |s| > 0
  {}

  /** The path expression accepts only strings whose pieces are all segments ... */
  lemma {:induction false} PathRegexSound(s: string)
    requires Matches(RGX_PATH, s)
    ensures AllSegments(Split(s))
    decreases |s|
  {
    hide Matches;
    SegmentRegex(s);
    if IsSegment(s) {
      SegmentHasNoSeparator(s);
      SplitPrefix(s, "");
    } else {
      var n := LoopUnfold(Cat(SEGMENT, Lit(PATH_SEPARATOR)), SEGMENT, s);
      var piece, rest := s[..n - 1], s[n..];
      ThenLit(SEGMENT, PATH_SEPARATOR, s[..n]);
      assert s[..n][..n - 1] == piece;
      SegmentRegex(piece);
      PathRegexSound(rest);
      SegmentHasNoSeparator(piece);
      assert s == piece + [PATH_SEPARATOR] + rest;
      SplitPrefix(piece, rest);
    }
  }

  /** ... and all of them. */
  lemma {:induction false} PathRegexComplete(s: string)
    requires AllSegments(Split(s))
    ensures Matches(RGX_PATH, s)
    decreases |s|
  {
    var item := Cat(SEGMENT, Lit(PATH_SEPARATOR));
    var k := SplitFirst(s);
    assert IsSegment(Split(s)[0]);
    SegmentRegex(s[..k]);
    if k == |s| {
      assert s[..k] == s;
      LoopEnds(item, SEGMENT, s);
    } else {
      assert Split(s[k + 1..]) == Split(s)[1..];
      PathRegexComplete(s[k + 1..]);
      ThenLit(SEGMENT, PATH_SEPARATOR, s[..k + 1]);
      assert s[..k + 1][..k] == s[..k];
      LoopTurns(item, SEGMENT, s, k + 1);
    }
  }

  lemma PathRegex(s: string)
    ensures Matches(RGX_PATH, s) <==> AllSegments(Split(s))
  {
    if Matches(RGX_PATH, s) { PathRegexSound(s); }
    if AllSegments(Split(s)) { PathRegexComplete(s); }
  }

  // ---------- Splitting and joining are inverse ----------

  lemma {:induction false} JoinSplit(s: string)
    ensures Join(Split(s)) == s
    decreases |s|
  {
    var k := SplitFirst(s);
    if k < |s| {
      JoinSplit(s[k + 1..]);
      assert Split(s)[1..] == Split(s[k + 1..]);
    }
  }

  lemma {:induction false} SplitJoin(segments: seq<string>)
    requires segments != [] && AllSegments(segments)
    ensures Split(Join(segments)) == segments
    decreases |segments|
  {
    SegmentHasNoSeparator(segments[0]);
    if |segments| == 1 {
      SplitPrefix(segments[0], "");
    } else {
      SplitJoin(segments[1..]);
      SplitPrefix(segments[0], Join(segments[1..]));
    }
  }

  lemma {:induction false} JoinNonEmpty(segments: seq<string>)
    requires segments != [] && AllSegments(segments)
    ensures Join(segments) != ""
  {
    SegmentHasNoSeparator(segments[0]);
  }

  // ---------- Topics ----------

  /** The fields of a topic. A topic value exists only with a valid protocol and a valid path. */
  datatype TopicParts = TopicParts(protocol: string, path: string) {
    predicate Valid() { IsProtocol(protocol) && IsPath(path) }
  }

  type Topic = t: TopicParts | t.Valid() witness TopicParts("a", "")

  function PathSegments(path: string): seq<string> {
    if path == "" then [] else Split(path)
  }

  function Segments(t: Topic): Pattern {
    [t.protocol] + PathSegments(t.path)
  }

  /** The segment sequences that topics have: a protocol, then path segments. */
  predicate IsTopicPattern(p: Pattern) {
    p != [] && IsProtocol(p[0]) && AllSegments(p[1..])
  }

  /** The path that these segments spell, built up piece by piece. */
  method JoinSegments(segments: seq<string>) returns (path: string)
    ensures path == Join(segments)
  {
    path := "";
    var i := 0;
    while i < |segments|
      invariant 0 <= i <= |segments|
      invariant path == Join(segments[..i])
    {
      JoinSnoc(segments[..i], segments[i]);
      assert segments[..i + 1] == segments[..i] + [segments[i]];
      if i > 0 {
        path := path + [PATH_SEPARATOR];
      }
      path := path + segments[i];
      i := i + 1;
    }
    assert segments[..i] == segments;
  }

  lemma {:induction false} JoinSnoc(front: seq<string>, last: string)
    ensures Join(front + [last]) == if front == [] then last else Join(front) + [PATH_SEPARATOR] + last
  {
    if front != [] {
      JoinSnoc(front[1..], last);
      assert (front + [last])[1..] == front[1..] + [last];
    }
  }

  /** The topic that a sequence of topic segments came from. */
  function FromSegments(p: Pattern): (t: Topic)
    requires IsTopicPattern(p)
    ensures Segments(t) == p
  {
    var path := Join(p[1..]);
    assert PathSegments(path) == p[1..] by {
      if p[1..] != [] { SplitJoin(p[1..]); JoinNonEmpty(p[1..]); }
    }
    TopicParts(p[0], path)
  }

  /** The topic that these segments spell; an empty list spells none. */
  method FromValidSegments(segments: seq<string>) returns (r: Option<Topic>)
    requires segments != [] ==> IsTopicPattern(segments)
    ensures r == if segments == [] then None else Some(FromSegments(segments))
  {
    if segments == [] {
      return None;
    }
    var path := JoinSegments(segments[1..]);
    assert TopicParts(segments[0], path) == FromSegments(segments);
    return Some(TopicParts(segments[0], path));
  }

  /** The patterns of some topics. */
  function Patterns(topics: seq<Topic>): set<Pattern> {
    set t | t in topics :: Segments(t)
  }

  /** Segments and topics correspond one to one. */
  lemma SegmentsRoundTrip(t: Topic)
    ensures IsTopicPattern(Segments(t)) && FromSegments(Segments(t)) == t
  {
    assert Segments(t)[1..] == PathSegments(t.path);
    JoinSplit(t.path);
  }

  lemma SegmentsInjective(t: Topic, u: Topic)
    requires Segments(t) == Segments(u)
    ensures t == u
  {
    SegmentsRoundTrip(t);
    SegmentsRoundTrip(u);
  }

  // ---------- Parsing and printing ----------

  datatype ParseError = InvalidTopicString

  function Print(t: Topic): string {
    t.protocol + [PROTOCOL_SEPARATOR] + t.path
  }

  /** Cut at the first separator. */
  function SplitOnce(s: string): (r: Option<(string, string)>)
    ensures r.Some? ==> s == r.value.0 + [PROTOCOL_SEPARATOR] + r.value.1 && PROTOCOL_SEPARATOR !in r.value.0
    ensures r.None? ==> PROTOCOL_SEPARATOR !in s
  {
    if s == "" then None
    else if s[0] == PROTOCOL_SEPARATOR then Some(("", s[1..]))
    else
      match SplitOnce(s[1..])
      case None => None
      case Some(r) => Some(([s[0]] + r.0, r.1))
  }

  ghost function Parse(s: string): (r: Result<TopicParts, ParseError>)
    ensures r.Ok? ==> r.value.Valid()
  {
    match SplitOnce(s)
    case None => Err(InvalidTopicString)
    case Some((protocol, path)) =>
      SegmentRegex(protocol);
      PathRegex(path);
      if !(path == "" || Matches(RGX_PATH, path)) then Err(InvalidTopicString)
      else if !Matches(RGX_PROTOCOL, protocol) then Err(InvalidTopicString)
      else Ok(TopicParts(protocol, path))
  }

  lemma {:induction false} SplitOnceUnique(before: string, after: string)
    requires PROTOCOL_SEPARATOR !in before
    ensures SplitOnce(before + [PROTOCOL_SEPARATOR] + after) == Some((before, after))
  {
    var s := before + [PROTOCOL_SEPARATOR] + after;
    if before == "" {
      assert s[1..] == after;
    } else {
      SplitOnceUnique(before[1..], after);
      assert s[1..] == before[1..] + [PROTOCOL_SEPARATOR] + after;
      assert s[0] == before[0] && before == [before[0]] + before[1..];
    }
  }

  lemma ParsePrint(t: Topic)
    ensures Parse(Print(t)) == Ok(t)
  {
    SegmentHasNoSeparator(t.protocol);
    SplitOnceUnique(t.protocol, t.path);
    SegmentRegex(t.protocol);
    PathRegex(t.path);
  }

  lemma PrintParse(s: string)
    ensures Parse(s).Ok? ==> Print(Parse(s).value) == s
    ensures Parse(s).Ok? <==> exists t: Topic :: Print(t) == s
  {
    if Parse(s).Ok? {
      var t: Topic := Parse(s).value;
      assert Print(t) == s;
    }
    if t: Topic :| Print(t) == s { ParsePrint(t); }
  }

  // ---------- Matching, seen as topics ----------

  /** Swap a word that no pattern can name for one that is a valid topic segment. */
  function Tame(words: seq<string>): seq<string> {
    if words == [] then [] else [if IsWord(words[0]) then words[0] else "a"] + Tame(words[1..])
  }

  lemma {:induction false} TameAccepted(p: Pattern, words: seq<string>)
    requires AllSegments(p) && Accepts(p, words)
    ensures Accepts(p, Tame(words))
    ensures forall i | 0 <= i < |Tame(words)| :: IsWord(Tame(words)[i])
    decreases |p| + |words|
  {
    if p != [] {
      if p[0] == DOUBLE_WILDCARD {
        if Accepts(p[1..], words) {
          TameAccepted(p[1..], words);
        } else {
          TameAccepted(p, words[1..]);
          assert Tame(words)[1..] == Tame(words[1..]);
        }
      } else {
        TameAccepted(p[1..], words[1..]);
        assert Tame(words)[1..] == Tame(words[1..]);
      }
    }
  }

  /** `t` stands for the single wildcard-free topic `u`. */
  ghost predicate Names(t: Topic, u: Topic) {
    Concrete(Segments(u)) && Accepts(Segments(t), Segments(u))
  }

  /** Two topics match exactly when some valid topic without wildcards is named by both. */
  lemma TopicsOverlap(t: Topic, u: Topic)
    ensures Overlap(Segments(t), Segments(u)) <==> exists v: Topic :: Names(t, v) && Names(u, v)
  {
    var p, q := Segments(t), Segments(u);
    if words :| InBoth(p, q, words) {
      TopicSegments(t);
      TopicSegments(u);
      TameAccepted(p, words);
      TameAccepted(q, words);
      var tame := Tame(words);
      assert tame != [];
      WordsAreConcrete(tame);
      assert IsTopicPattern(tame);
      var v: Topic := FromSegments(tame);
      assert Names(t, v) && Names(u, v);
    }
    if v: Topic :| Names(t, v) && Names(u, v) { OverlapIntro(p, q, Segments(v)); }
  }

  lemma TopicSegments(t: Topic)
    ensures AllSegments(Segments(t)) && Segments(t) != [] && Segments(t)[0] != DOUBLE_WILDCARD
  {
    SegmentsRoundTrip(t);
    assert IsSegment(t.protocol);
    assert !IsWord(DOUBLE_WILDCARD) by { assert !IsWordChar(DOUBLE_WILDCARD[0]); }
    assert forall i | 1 <= i < |Segments(t)| :: Segments(t)[i] == Segments(t)[1..][i - 1];
  }

  lemma WordsAreConcrete(words: seq<string>)
    requires forall i | 0 <= i < |words| :: IsWord(words[i])
    ensures Concrete(words) && AllSegments(words)
    ensures words != [] ==> AllSegments(words[1..])
  {
    forall i | 0 <= i < |words| ensures !IsWildcard(words[i]) {
      assert IsWordChar(words[i][0]);
    }
  }

  // ---------- The grammar, symbol by symbol ----------

  /** A path without a slash is empty or one segment. */
  lemma NoSlash(s: string)
    requires '/' !in s
    ensures IsPath(s) <==> s == "" || IsSegment(s)
  {
    SplitPrefix(s, "");
    assert AllSegments([s]) <==> IsSegment(s) by { assert [s][0] == s; }
  }

  /** A slash stands between a segment and a path that is not empty. */
  lemma Slash(segment: string, rest: string)
    requires '/' !in segment
    ensures IsPath(segment + "/" + rest) <==> IsSegment(segment) && rest != "" && IsPath(rest)
  {
    SplitPrefix(segment, rest);
    SplitPrefix("", "");
    var pieces := [segment] + Split(rest);
    assert Split(segment + "/" + rest) == pieces by { assert "/" == [PATH_SEPARATOR]; }
    assert AllSegments(pieces) <==> IsSegment(segment) && AllSegments(Split(rest)) by {
      assert pieces[0] == segment && pieces[1..] == Split(rest);
      assert forall i | 1 <= i < |pieces| :: pieces[i] == Split(rest)[i - 1];
      assert forall i | 0 <= i < |Split(rest)| :: Split(rest)[i] == pieces[i + 1];
    }
    if rest == "" { assert Split(rest)[0] == ""; }
  }

  /** A colon stands between the protocol and the path of a topic. */
  lemma Colon(protocol: string, path: string)
    requires ':' !in protocol
    ensures Parse(protocol + ":" + path) ==
            if IsProtocol(protocol) && IsPath(path) then Ok(TopicParts(protocol, path)) else Err(InvalidTopicString)
  {
    SplitOnceUnique(protocol, path);
    assert protocol + ":" + path == protocol + [PROTOCOL_SEPARATOR] + path;
    SegmentRegex(protocol);
    PathRegex(path);
    hide Matches;
  }
}
