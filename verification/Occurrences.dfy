/** Whatever occurs in the output of a replacement by `$n` lay in one piece in its input. */
module Occurrences {
  import opened Decimals
  import opened Rewriter

  // --- occurrences survive backwards -------------------------------------------------------------

  function Mapped(f: char -> char, s: string): (r: string)
    ensures |r| == |s| && forall i :: 0 <= i < |s| ==> r[i] == f(s[i])
  {
    if s == "" then "" else [f(s[0])] + Mapped(f, s[1..])
  }

  /** Case folding leaves `$` and digits alone. */
  ghost predicate KeepsPositions(f: char -> char) {
    forall c :: c == '$' || IsDigit(c) ==> f(c) == c
  }

  /** A text that neither starts inside a `$n` nor holds a `$` itself. */
  predicate Outside(w: string) {
    w != "" && '$' !in w && !IsDigit(w[0])
  }

  lemma MappedCons(f: char -> char, s: string)
    requires s != ""
    ensures Mapped(f, s)[1..] == Mapped(f, s[1..])
  {
  }

  lemma {:induction false} PrefixSurvives(f: char -> char, s: string, pat: string, k: nat, w: string)
    requires pat != "" && KeepsPositions(f) && '$' !in w
    requires w <= Mapped(f, ReplaceAll(s, pat, Positional(k)))
    ensures w <= Mapped(f, s)
  {
    hide Dec;
    if w != "" && s != "" {
      var out := ReplaceAll(s, pat, Positional(k));
      assert w[0] == f(out[0]) && w[0] in w;
      assert out[0] != '$';
      assert out[1..] == ReplaceAll(s[1..], pat, Positional(k));
      MappedCons(f, out);
      assert w[1..] <= Mapped(f, out)[1..];
      PrefixSurvives(f, s[1..], pat, k, w[1..]);
      MappedCons(f, s);
      assert w == [w[0]] + w[1..];
    }
  }

  lemma {:induction false} SkipPositional(f: char -> char, u: string, s: string, w: string)
    requires KeepsPositions(f) && Outside(w)
    requires forall c :: c in u ==> c == '$' || IsDigit(c)
    ensures Contains(Mapped(f, u + s), w) ==> Contains(Mapped(f, s), w)
  {
    if u == "" {
      assert u + s == s;
    } else {
      assert (u + s)[1..] == u[1..] + s;
      MappedCons(f, u + s);
      SkipPositional(f, u[1..], s, w);
      assert Mapped(f, u + s)[0] == u[0] && u[0] in u;
      assert w[0] in w;
    }
  }

  /** Whatever occurs in the output lay in one piece in the input. */
  lemma {:induction false} OccurrenceSurvives(f: char -> char, s: string, pat: string, k: nat, w: string)
    requires pat != "" && KeepsPositions(f) && Outside(w)
    requires Contains(Mapped(f, ReplaceAll(s, pat, Positional(k))), w)
    ensures Contains(Mapped(f, s), w)
    decreases |s|
  {
    hide Dec;
    if s == "" {
    } else {
      var out := ReplaceAll(s, pat, Positional(k));
      if pat <= s {
        SkipPositional(f, Positional(k), ReplaceAll(s[|pat|..], pat, Positional(k)), w);
        OccurrenceSurvives(f, s[|pat|..], pat, k, w);
        assert Mapped(f, s)[|pat|..] == Mapped(f, s[|pat|..]);
        ContainsDrop(Mapped(f, s), w, |pat|);
      } else if w <= Mapped(f, out) {
        assert '$' !in w;
        PrefixSurvives(f, s, pat, k, w);
      } else {
        assert out[1..] == ReplaceAll(s[1..], pat, Positional(k));
        MappedCons(f, out);
        OccurrenceSurvives(f, s[1..], pat, k, w);
        MappedCons(f, s);
      }
    }
  }

  lemma {:induction false} ContainsDrop(s: string, w: string, n: nat)
    requires n <= |s| && Contains(s[n..], w)
    ensures Contains(s, w)
  {
    if n == 0 {
      assert s[0..] == s;
    } else {
      assert s[1..][n - 1..] == s[n..];
      ContainsDrop(s[1..], w, n - 1);
    }
  }
}
