/** SQL LIKE (like_match in src/db.c): '%' stands for any string, '_' for any one
    character, every other character for itself. */
module Like {
  /** What a pattern means. */
  ghost predicate Matches(s: string, pat: string)
    decreases |pat|
  {
    if pat == [] then s == []
    else if pat[0] == '%' then exists k: nat :: k <= |s| && Matches(s[k..], pat[1..])
    else s != [] && (pat[0] == '_' || pat[0] == s[0]) && Matches(s[1..], pat[1..])
  }

  /** A '%'-free piece of pattern fits at the start of a text. */
  ghost predicate Fits(s: string, piece: string) {
    |piece| <= |s| && forall i | 0 <= i < |piece| :: piece[i] != '%' && (piece[i] == '_' || piece[i] == s[i])
  }

  /** Some suffix of s from position m on matches. */
  ghost predicate MatchesFrom(s: string, m: nat, pat: string) {
    exists k: nat :: m <= k <= |s| && Matches(s[k..], pat)
  }

  /** A '%'-free piece consumes exactly the characters it fits. */
  lemma {:induction false} PieceConsumes(s: string, piece: string, rest: string)
    requires forall i | 0 <= i < |piece| :: piece[i] != '%'
    ensures Matches(s, piece + rest) <==> Fits(s, piece) && Matches(s[|piece|..], rest)
    decreases |piece|
  {
    if piece == [] {
      assert piece + rest == rest && s[0..] == s;
    } else {
      assert (piece + rest)[1..] == piece[1..] + rest;
      if s != [] {
        PieceConsumes(s[1..], piece[1..], rest);
        if |piece| <= |s| { assert s[1..][|piece| - 1..] == s[|piece|..]; }
        assert Fits(s, piece) <==> (piece[0] == '_' || piece[0] == s[0]) && Fits(s[1..], piece[1..]);
      }
    }
  }

  lemma PercentIsAnySuffix(s: string, pat: string)
    requires pat != [] && pat[0] == '%'
    ensures Matches(s, pat) <==> MatchesFrom(s, 0, pat[1..])
  {
  }

  /** Behind a piece that fits at position m, a '%' makes every earlier choice as good as m:
      only the last '%' has to be remembered. */
  lemma LastPercentSuffices(s: string, m: nat, piece: string, rest: string)
    requires m <= |s| && Fits(s[m..], piece)
    ensures MatchesFrom(s, m, piece + "%" + rest) <==> MatchesFrom(s, m + |piece|, rest)
  {
    var pat := piece + "%" + rest;
    assert pat == piece + ("%" + rest) && ("%" + rest)[1..] == rest;
    var n := m + |piece|;
    if MatchesFrom(s, m, pat) {
      var k: nat :| m <= k <= |s| && Matches(s[k..], pat);
      PieceConsumes(s[k..], piece, "%" + rest);
      var t := s[k..][|piece|..];
      PercentIsAnySuffix(t, "%" + rest);
      var j: nat :| j <= |t| && Matches(t[j..], rest);
      assert t[j..] == s[k + |piece| + j..];
      assert n <= k + |piece| + j <= |s|;
    }
    if MatchesFrom(s, n, rest) {
      var k: nat :| n <= k <= |s| && Matches(s[k..], rest);
      var t := s[m..][|piece|..];
      assert t[k - n..] == s[k..];
      PercentIsAnySuffix(t, "%" + rest);
      PieceConsumes(s[m..], piece, "%" + rest);
    }
  }

  lemma {:induction false} AllPercent(pat: string)
    requires forall i | 0 <= i < |pat| :: pat[i] == '%'
    ensures Matches("", pat)
    decreases |pat|
  {
    if pat != [] {
      AllPercent(pat[1..]);
      assert ""[0..] == "";
    }
  }

  lemma {:induction false} EmptyNeedsPercents(pat: string, i: nat)
    requires Matches("", pat) && i < |pat|
    ensures pat[i] == '%'
    decreases |pat|
  {
    if i > 0 {
      var k: nat :| k <= 0 && Matches(""[k..], pat[1..]);
      EmptyNeedsPercents(pat[1..], i - 1);
    }
  }

  /** What is left to decide when `piece` already fits from position m on, m being
      fixed by the last '%' (or the start of the text when there is none). */
  ghost predicate Pending(s: string, anywhere: bool, m: nat, pat: string)
    requires m <= |s|
  {
    if anywhere then MatchesFrom(s, m, pat) else Matches(s[m..], pat)
  }

  lemma NextStart(s: string, m: nat, pat: string)
    requires m < |s| && !Matches(s[m..], pat)
    ensures MatchesFrom(s, m, pat) <==> MatchesFrom(s, m + 1, pat)
  {
  }

  lemma Mismatch(s: string, m: nat, i: nat, pat: string, j: nat)
    requires m <= i < |s| && j <= |pat| && j == i - m && Fits(s[m..], pat[..j])
    requires j == |pat| || (pat[j] != '%' && pat[j] != '_' && pat[j] != s[i])
    ensures !Matches(s[m..], pat)
  {
    assert pat[..j] + pat[j..] == pat;
    PieceConsumes(s[m..], pat[..j], pat[j..]);
    assert s[m..][j..] == s[i..];
  }

  lemma FitOneMore(s: string, m: nat, i: nat, pat: string, j: nat)
    requires m <= i < |s| && j < |pat| && j == i - m && Fits(s[m..], pat[..j])
    requires pat[j] != '%' && (pat[j] == '_' || pat[j] == s[i])
    ensures Fits(s[m..], pat[..j + 1])
  {
  }

  /** The text is used up: only the current choice of start can still match. */
  lemma AtEnd(s: string, anywhere: bool, m: nat, pat: string, j: nat)
    requires m <= |s| && j <= |pat| && j == |s| - m && Fits(s[m..], pat[..j])
    ensures Pending(s, anywhere, m, pat) <==> forall i | j <= i < |pat| :: pat[i] == '%'
  {
    assert pat[..j] + pat[j..] == pat;
    PieceConsumes(s[m..], pat[..j], pat[j..]);
    assert s[m..][j..] == "";
    if anywhere && MatchesFrom(s, m, pat) {
      var k: nat :| m <= k <= |s| && Matches(s[k..], pat);
      PieceConsumes(s[k..], pat[..j], pat[j..]);
      assert k == m;
    }
    if Matches("", pat[j..]) {
      forall i | j <= i < |pat|
        ensures pat[i] == '%'
      {
        EmptyNeedsPercents(pat[j..], i - j);
        assert pat[j..][i - j] == pat[i];
      }
    }
    if forall i | j <= i < |pat| :: pat[i] == '%' {
      AllPercent(pat[j..]);
    }
  }

  /** The state of the loop: text position i, pattern position j, `star` one past the last '%'
      and `from` the text position tried for it (both 0 before the first '%'). */
  ghost predicate Loop(s: string, pat: string, starred: bool, star: nat, from: nat, i: nat, j: nat) {
    && from <= i <= |s| && star <= j <= |pat| && j - star == i - from
    && Fits(s[from..], pat[star..][..j - star])
    && (Pending(s, starred, from, pat[star..]) <==> Matches(s, pat))
  }

  lemma OnPercent(s: string, pat: string, starred: bool, star: nat, from: nat, i: nat, j: nat)
    requires Loop(s, pat, starred, star, from, i, j) && j < |pat| && pat[j] == '%'
    ensures Loop(s, pat, true, j + 1, i, i, j + 1)
  {
    var rest := pat[star..];
    assert rest[j - star] == pat[j];
    MeetPercent(s, starred, from, rest, j - star);
    assert rest[j - star + 1..] == pat[j + 1..];
  }

  lemma OnFit(s: string, pat: string, starred: bool, star: nat, from: nat, i: nat, j: nat)
    requires Loop(s, pat, starred, star, from, i, j) && i < |s| && j < |pat| && pat[j] != '%'
    requires pat[j] == '_' || pat[j] == s[i]
    ensures Loop(s, pat, starred, star, from, i + 1, j + 1)
  {
    FitOneMore(s, from, i, pat[star..], j - star);
  }

  lemma OnMismatch(s: string, pat: string, starred: bool, star: nat, from: nat, i: nat, j: nat)
    requires Loop(s, pat, starred, star, from, i, j) && i < |s|
    requires j == |pat| || (pat[j] != '%' && pat[j] != '_' && pat[j] != s[i])
    ensures starred ==> Loop(s, pat, true, star, from + 1, from + 1, star)
    ensures !starred ==> !Matches(s, pat)
  {
    Mismatch(s, from, i, pat[star..], j - star);
    NextStart(s, from, pat[star..]);
  }

  /** like_match: a loop over two positions that remembers only the last '%'. */
  method LikeMatch(s: string, pat: string) returns (ok: bool)
    ensures ok <==> Matches(s, pat)
  {
    var i, j, star, from, starred := 0, 0, 0, 0, false;
    assert s[0..] == s && pat[0..] == pat;
    while i < |s|
      invariant Loop(s, pat, starred, star, from, i, j)
      decreases |pat| - (if starred then star else -1), |s| - from, |pat| - j
    {
      if j < |pat| && pat[j] == '%' {
        OnPercent(s, pat, starred, star, from, i, j);
        starred := true;
        j := j + 1;
        star, from := j, i;
      } else if j < |pat| && (pat[j] == '_' || pat[j] == s[i]) {
        OnFit(s, pat, starred, star, from, i, j);
        i, j := i + 1, j + 1;
      } else {
        OnMismatch(s, pat, starred, star, from, i, j);
        if !starred {
          return false;
        }
        from := from + 1;
        i, j := from, star;
      }
    }
    AtEnd(s, starred, from, pat[star..], j - star);
    ok := OnlyPercents(pat, j);
    assert forall k | j <= k < |pat| :: pat[k] == pat[star..][k - star];
  }

  method OnlyPercents(pat: string, from: nat) returns (ok: bool)
    requires from <= |pat|
    ensures ok <==> forall k | from <= k < |pat| :: pat[k] == '%'
  {
    var j := from;
    while j < |pat| && pat[j] == '%'
      invariant from <= j <= |pat| && forall k | from <= k < j :: pat[k] == '%'
    {
      j := j + 1;
    }
    ok := j == |pat|;
  }

  /** Reaching a '%' with the piece before it in place. */
  lemma MeetPercent(s: string, anywhere: bool, m: nat, pat: string, j: nat)
    requires m <= |s| && j < |pat| && pat[j] == '%' && Fits(s[m..], pat[..j])
    ensures m + j <= |s| && (Pending(s, anywhere, m, pat) <==> MatchesFrom(s, m + j, pat[j + 1..]))
  {
    var piece, rest := pat[..j], pat[j + 1..];
    assert pat == piece + "%" + rest && pat == piece + ("%" + rest);
    if anywhere {
      LastPercentSuffices(s, m, piece, rest);
    } else {
      PieceConsumes(s[m..], piece, "%" + rest);
      var t := s[m..][j..];
      PercentIsAnySuffix(t, "%" + rest);
      assert ("%" + rest)[1..] == rest;
      assert forall k: nat | k <= |t| :: t[k..] == s[m + j + k..];
      assert MatchesFrom(t, 0, rest) <==> MatchesFrom(s, m + j, rest) by {
        if MatchesFrom(s, m + j, rest) {
          var k: nat :| m + j <= k <= |s| && Matches(s[k..], rest);
          assert t[k - m - j..] == s[k..];
        }
      }
    }
  }
}
