/** Regular expressions, just enough to state the topic grammar the way the source does. */
module Regexes {
  datatype Regex =
    | Chars(chars: set<char>)
    | Cat(first: Regex, second: Regex)
    | Alt(left: Regex, right: Regex)
    | Star(body: Regex)

  function Plus(r: Regex): Regex { Cat(r, Star(r)) }

  function Lit(c: char): Regex { Chars({c}) }

  /** `r` matches the whole of `s`, as an expression anchored by `^` and `$` does. */
  ghost predicate Matches(r: Regex, s: string)
    decreases r, |s|
  {
    match r
    case Chars(chars) => |s| == 1 && s[0] in chars
    case Cat(first, second) => exists k | 0 <= k <= |s| :: Matches(first, s[..k]) && Matches(second, s[k..])
    case Alt(left, right) => Matches(left, s) || Matches(right, s)
    case Star(body) => s == "" || exists k | 0 < k <= |s| :: Matches(body, s[..k]) && Matches(r, s[k..])
  }

  lemma {:induction false} StarOfChars(chars: set<char>, s: string)
    ensures Matches(Star(Chars(chars)), s) <==> forall i | 0 <= i < |s| :: s[i] in chars
  {
    var r := Star(Chars(chars));
    if s != "" {
      StarOfChars(chars, s[1..]);
      if Matches(r, s) {
        var k :| 0 < k <= |s| && Matches(Chars(chars), s[..k]) && Matches(r, s[k..]);
        assert k == 1;
        assert forall i | 1 <= i < |s| :: s[i] == s[1..][i - 1];
      }
      if forall i | 0 <= i < |s| :: s[i] in chars {
        assert Matches(Chars(chars), s[..1]) && Matches(r, s[1..]);
      }
    }
  }

  lemma PlusOfChars(chars: set<char>, s: string)
    ensures Matches(Plus(Chars(chars)), s) <==> |s| > 0 && forall i | 0 <= i < |s| :: s[i] in chars
  {
    var one, more := Chars(chars), Star(Chars(chars));
    if Matches(Plus(one), s) {
      var k :| 0 <= k <= |s| && Matches(one, s[..k]) && Matches(more, s[k..]);
      StarOfChars(chars, s[k..]);
      assert forall i | 1 <= i < |s| :: s[i] == s[k..][i - 1];
    }
    if |s| > 0 && forall i | 0 <= i < |s| :: s[i] in chars {
      StarOfChars(chars, s[1..]);
      assert Matches(one, s[..1]) && Matches(more, s[1..]);
    }
  }

  /** A loop that something follows either makes no turn ... */
  lemma LoopEnds(a: Regex, b: Regex, s: string)
    requires Matches(b, s)
    ensures Matches(Cat(Star(a), b), s)
  {
    assert s[..0] == "" && s[0..] == s;
  }

  /** ... or one more turn. */
  lemma LoopTurns(a: Regex, b: Regex, s: string, k: nat)
    requires 0 < k <= |s| && Matches(a, s[..k]) && Matches(Cat(Star(a), b), s[k..])
    ensures Matches(Cat(Star(a), b), s)
  {
    var m :| 0 <= m <= |s[k..]| && Matches(Star(a), s[k..][..m]) && Matches(b, s[k..][m..]);
    var loop := s[..k + m];
    assert loop[k..] == s[k..][..m] && loop[..k] == s[..k];
    assert Matches(Star(a), loop);
    assert s[k + m..] == s[k..][m..];
  }

  lemma LoopUnfold(a: Regex, b: Regex, s: string) returns (k: nat)
    requires Matches(Cat(Star(a), b), s) && !Matches(b, s)
    ensures 0 < k <= |s| && Matches(a, s[..k]) && Matches(Cat(Star(a), b), s[k..])
  {
    var n :| 0 <= n <= |s| && Matches(Star(a), s[..n]) && Matches(b, s[n..]);
    assert n > 0 by { assert s[0..] == s; }
    hide Matches;
    k := FirstTurn(a, s[..n]);
    assert s[..n][..k] == s[..k];
    assert s[..n][k..] == s[k..][..n - k] && s[k..][n - k..] == s[n..];
    CatIntro(Star(a), b, s[k..], n - k);
  }

  lemma FirstTurn(a: Regex, s: string) returns (k: nat)
    requires Matches(Star(a), s) && s != ""
    ensures 0 < k <= |s| && Matches(a, s[..k]) && Matches(Star(a), s[k..])
  {
    k :| 0 < k <= |s| && Matches(a, s[..k]) && Matches(Star(a), s[k..]);
  }

  lemma CatIntro(a: Regex, b: Regex, s: string, k: nat)
    requires k <= |s| && Matches(a, s[..k]) && Matches(b, s[k..])
    ensures Matches(Cat(a, b), s)
  {}

  /** Something followed by one given character. */
  lemma ThenLit(a: Regex, c: char, s: string)
    ensures Matches(Cat(a, Lit(c)), s) <==> |s| > 0 && s[|s| - 1] == c && Matches(a, s[..|s| - 1])
  {
    if Matches(Cat(a, Lit(c)), s) {
      var k :| 0 <= k <= |s| && Matches(a, s[..k]) && Matches(Lit(c), s[k..]);
      assert k == |s| - 1;
    }
    if |s| > 0 && s[|s| - 1] == c {
      assert Matches(Lit(c), s[|s| - 1..]);
    }
  }

  lemma MatchesLit(c: char, s: string)
    ensures Matches(Lit(c), s) <==> s == [c]
  {}
}
