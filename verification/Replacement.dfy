/** What replacing one parameter does to any text and any key, names or not. */
module Replacement {
  import opened Decimals
  import opened Rewriter

  /** The parts with a separator between each two. */
  function Join(parts: seq<string>, sep: string): string
    requires parts != []
  {
    if |parts| == 1 then parts[0] else parts[0] + sep + Join(parts[1..], sep)
  }

  /** No occurrence of pat starts inside p, if `behind` follows. */
  ghost predicate Clear(p: string, behind: string, pat: string) {
    forall j :: 0 <= j < |p| ==> !(pat <= (p + behind)[j..])
  }

  /** The parts between the leftmost occurrences of pat that do not overlap. */
  ghost predicate CutAt(parts: seq<string>, pat: string) {
    && parts != []
    && forall i :: 0 <= i < |parts| ==> Clear(parts[i], if i < |parts| - 1 then pat else "", pat)
  }

  lemma ClearEmpty(behind: string, pat: string)
    ensures Clear("", behind, pat)
  {
  }

  lemma CutFront(parts: seq<string>, pat: string)
    requires pat != "" && CutAt(parts, pat)
    ensures CutAt([""] + parts, pat)
  {
    hide Clear;
    var more := [""] + parts;
    ClearEmpty(pat, pat);
    assert forall i :: 0 < i < |more| ==> more[i] == parts[i - 1];
  }

  lemma JoinFront(parts: seq<string>, sep: string)
    requires parts != []
    ensures Join([""] + parts, sep) == sep + Join(parts, sep)
  {
    assert ([""] + parts)[1..] == parts;
  }

  lemma ClearLonger(c: char, p: string, behind: string, pat: string)
    requires Clear(p, behind, pat) && !(pat <= [c] + p + behind)
    ensures Clear([c] + p, behind, pat)
  {
    var q := [c] + p;
    assert q + behind == [c] + p + behind;
    forall j | 0 <= j < |q|
      ensures !(pat <= (q + behind)[j..])
    {
      if j > 0 {
        assert (q + behind)[j..] == (p + behind)[j - 1..];
      }
    }
  }

  lemma PrefixStart(start: string, parts: seq<string>, pat: string, c: char)
    requires parts != [] && start == [c] + parts[0] + if |parts| > 1 then pat else ""
    ensures start <= [c] + Join(parts, pat)
  {
    if |parts| > 1 {
      assert [c] + Join(parts, pat) == start + Join(parts[1..], pat);
    }
  }

  /** One more character in front, at which pat does not start. */
  lemma CutLonger(c: char, parts: seq<string>, pat: string)
    requires CutAt(parts, pat) && !(pat <= [c] + Join(parts, pat))
    ensures CutAt([[c] + parts[0]] + parts[1..], pat)
  {
    hide Clear;
    var more := [[c] + parts[0]] + parts[1..];
    assert forall i :: 0 < i < |more| ==> more[i] == parts[i];
    var behind := if |parts| > 1 then pat else "";
    PrefixStart([c] + parts[0] + behind, parts, pat, c);
    ClearLonger(c, parts[0], behind, pat);
  }

  lemma JoinLonger(c: char, parts: seq<string>, sep: string)
    requires parts != []
    ensures Join([[c] + parts[0]] + parts[1..], sep) == [c] + Join(parts, sep)
  {
    assert ([[c] + parts[0]] + parts[1..])[1..] == parts[1..];
  }

  lemma CutNonEmpty(parts: seq<string>, pat: string)
    requires CutAt(parts, pat)
    ensures parts != []
  {
  }

  lemma EmptyParts(pat: string, rep: string)
    ensures CutAt([""], pat) && Join([""], pat) == "" && Join([""], rep) == ""
  {
  }

  /** Replacing puts the new text in the place of the leftmost occurrences that do not overlap, and
      changes nothing else. */
  lemma {:induction false} ReplacedParts(s: string, pat: string, rep: string) returns (parts: seq<string>)
    requires pat != ""
    ensures CutAt(parts, pat) && s == Join(parts, pat) && ReplaceAll(s, pat, rep) == Join(parts, rep)
    ensures |parts| > 1 <==> Contains(s, pat)
  {
    hide Clear, CutAt, Join;
    if s == "" {
      parts := [""];
      assert CutAt([""], pat) && Join([""], pat) == "" && Join([""], rep) == "" by {
        EmptyParts(pat, rep);
      }
    } else if pat <= s {
      var rest := ReplacedParts(s[|pat|..], pat, rep);
      assert rest != [] by {
        CutNonEmpty(rest, pat);
      }
      parts := [""] + rest;
      CutFront(rest, pat);
      JoinFront(rest, pat);
      JoinFront(rest, rep);
    } else {
      var rest := ReplacedParts(s[1..], pat, rep);
      assert rest != [] by {
        CutNonEmpty(rest, pat);
      }
      parts := [[s[0]] + rest[0]] + rest[1..];
      CutLonger(s[0], rest, pat);
      JoinLonger(s[0], rest, pat);
      JoinLonger(s[0], rest, rep);
    }
  }

  lemma OnePart(parts: seq<string>, x: string, y: string)
    requires |parts| == 1
    ensures Join(parts, x) == Join(parts, y)
  {
  }

  /** A query with one parameter, whatever its key and its value: each leftmost occurrence of the colon
      and the key becomes `$1`, the rest stays, and the value is passed exactly if there is one. */
  lemma OneParameter(raw: string, key: string, value: string) returns (parts: seq<string>)
    ensures CutAt(parts, ":" + key) && raw == Join(parts, ":" + key)
    ensures Rewrite(raw, [], [key], map[key := value])
         == (Join(parts, "$1"), if |parts| > 1 then [value] else [])
  {
    hide Clear, CutAt, Join, Contains, ReplaceAll;
    parts := ReplacedParts(raw, ":" + key, "$1");
    assert Positional(0 + 1) == "$1";
    var params := map[key := value];
    assert [key][1..] == [] && [] + [params[key]] == [value];
    var sql := if Contains(raw, ":" + key) then ReplaceAll(raw, ":" + key, "$1") else raw;
    var args := if Contains(raw, ":" + key) then [value] else [];
    assert Rewrite(raw, [], [key], params) == (sql, args);
    CutNonEmpty(parts, ":" + key);
    if |parts| == 1 {
      OnePart(parts, ":" + key, "$1");
    }
  }
}
