/** The filter in front of the query service: what it accepts, and that rewriting cannot undo its verdict. */
module SafeSelect {
  import opened Decimals
  import opened Occurrences
  import opened Rewriter
  import opened RewriterMeaning
  import opened RewriterTokens
  import opened Wrappers

  /** Unicode case folding and white space. Outside ASCII they are arbitrary, except that white
      space has no case. */
  datatype Unicode = Unicode(lower: char -> char, space: char -> bool)

  predicate IsAsciiSpace(c: char) {
    c == ' ' || 9 <= c as int <= 13
  }

  function AsciiLower(c: char): char {
    if 'A' <= c <= 'Z' then (c as int + 32) as char else c
  }

  ghost predicate Standard(u: Unicode) {
    && (forall c: char :: c as int < 128 ==> u.lower(c) == AsciiLower(c) && u.space(c) == IsAsciiSpace(c))
    && forall c: char :: u.space(c) ==> u.lower(c) == c
  }

  // --- strings.TrimSpace -------------------------------------------------------------------------

  function TrimLeft(u: Unicode, s: string): string {
    if s != "" && u.space(s[0]) then TrimLeft(u, s[1..]) else s
  }

  function TrimRight(u: Unicode, s: string): string {
    if s != "" && u.space(s[|s| - 1]) then TrimRight(u, s[..|s| - 1]) else s
  }

  function Trim(u: Unicode, s: string): string {
    TrimRight(u, TrimLeft(u, s))
  }

  // --- isSafeSelect ------------------------------------------------------------------------------

  const ILLEGAL: seq<string> := ["insert", "update", "delete", "drop", "alter", "create", ";", "--"]

  predicate Safe(u: Unicode, q: string) {
    var t := Mapped(u.lower, Trim(u, q));
    "select" <= t && forall w :: w in ILLEGAL ==> !Contains(t, w)
  }

  method IsSafeSelect(u: Unicode, query: string) returns (ok: bool)
    ensures ok <==> Safe(u, query)
  {
    var q := Mapped(u.lower, Trim(u, query));
    if !("select" <= q) {
      return false;
    }
    var i := 0;
    while i < |ILLEGAL|
      invariant 0 <= i <= |ILLEGAL|
      invariant forall j :: 0 <= j < i ==> !Contains(q, ILLEGAL[j])
    {
      if Contains(q, ILLEGAL[i]) {
        return false;
      }
      i := i + 1;
    }
    return true;
  }

  // --- a listed word lies in the trimmed text exactly if it lies in the text ---------------------

  ghost predicate NoSpaces(u: Unicode, w: string) {
    w != "" && forall c :: c in w ==> !u.space(c)
  }

  lemma {:induction false} ContainsTake(s: string, w: string, c: char)
    requires w != ""
    ensures Contains(s, w) ==> Contains(s + [c], w)
    ensures c !in w && Contains(s + [c], w) ==> Contains(s, w)
  {
    if s == "" {
      assert (s + [c])[1..] == "";
      assert c !in w ==> w[0] != c;
    } else {
      assert (s + [c])[1..] == s[1..] + [c];
      ContainsTake(s[1..], w, c);
      if w <= s {
        assert w <= s + [c];
      }
      if w <= s + [c] && |w| > |s| {
        assert w == s + [c];
        assert w[|s|] == c;
      }
    }
  }

  lemma {:induction false} TrimLeftKeeps(u: Unicode, s: string, w: string)
    requires Standard(u) && NoSpaces(u, w)
    ensures Contains(Mapped(u.lower, TrimLeft(u, s)), w) <==> Contains(Mapped(u.lower, s), w)
  {
    if s != "" && u.space(s[0]) {
      TrimLeftKeeps(u, s[1..], w);
      MappedCons(u.lower, s);
      assert w[0] in w;
    }
  }

  lemma {:induction false} TrimRightKeeps(u: Unicode, s: string, w: string)
    requires Standard(u) && NoSpaces(u, w)
    ensures Contains(Mapped(u.lower, TrimRight(u, s)), w) <==> Contains(Mapped(u.lower, s), w)
  {
    hide Mapped, Contains, NoSpaces;
    if s != "" && u.space(s[|s| - 1]) {
      var n := |s| - 1;
      TrimRightKeeps(u, s[..n], w);
      SpaceNotIn(u, w, s[n]);
      assert Mapped(u.lower, s) == Mapped(u.lower, s[..n]) + [u.lower(s[n])];
      ContainsTake(Mapped(u.lower, s[..n]), w, u.lower(s[n]));
    }
  }

  lemma SpaceNotIn(u: Unicode, w: string, c: char)
    requires Standard(u) && NoSpaces(u, w) && u.space(c)
    ensures w != "" && u.lower(c) !in w
  {
  }

  lemma TrimKeeps(u: Unicode, s: string, w: string)
    requires Standard(u) && NoSpaces(u, w)
    ensures Contains(Mapped(u.lower, Trim(u, s)), w) <==> Contains(Mapped(u.lower, s), w)
  {
    TrimLeftKeeps(u, s, w);
    TrimRightKeeps(u, TrimLeft(u, s), w);
  }

  lemma IllegalWords(u: Unicode, w: string)
    requires Standard(u) && w in ILLEGAL
    ensures NoSpaces(u, w) && Outside(w)
  {
    forall c | c in w ensures !u.space(c) && c != '$' {
      assert c as int < 128;
    }
  }

  // --- the leading select ------------------------------------------------------------------------

  /** Trimming on the right never reaches a word at the front. */
  lemma {:induction false} TrimRightPrefix(u: Unicode, s: string, w: string)
    requires Standard(u) && NoSpaces(u, w)
    ensures w <= Mapped(u.lower, TrimRight(u, s)) <==> w <= Mapped(u.lower, s)
  {
    hide Mapped;
    if s != "" && u.space(s[|s| - 1]) {
      var n := |s| - 1;
      TrimRightPrefix(u, s[..n], w);
      assert u.lower(s[n]) == s[n] && s[n] !in w;
      assert forall i :: 0 <= i < n ==> s[..n][i] == s[i];
      hide Standard, NoSpaces;
      PrefixTake(Mapped(u.lower, s[..n]), Mapped(u.lower, s), w);
    }
  }

  lemma PrefixTake(x: string, y: string, w: string)
    requires |y| == |x| + 1 && (forall i :: 0 <= i < |x| ==> x[i] == y[i]) && y[|x|] !in w
    ensures w <= x <==> w <= y
  {
    assert y[..|x|] == x;
    assert w != y;
  }

  lemma {:induction false} PrefixStays(u: Unicode, s: string, w: string, key: string, k: nat)
    requires Standard(u) && ':' !in w && w <= Mapped(u.lower, s)
    ensures w <= Mapped(u.lower, ReplaceAll(s, Placeholder(key), Positional(k)))
  {
    if w == "" {
    } else {
      var out := ReplaceAll(s, Placeholder(key), Positional(k));
      assert w[0] == u.lower(s[0]) && w[0] in w;
      assert s[0] != ':';
      assert out[0] == s[0] && out[1..] == ReplaceAll(s[1..], Placeholder(key), Positional(k));
      MappedCons(u.lower, s);
      PrefixStays(u, s[1..], w[1..], key, k);
      MappedCons(u.lower, out);
      assert w == [w[0]] + w[1..];
    }
  }

  lemma {:induction false} SelectStays(u: Unicode, s: string, key: string, k: nat)
    requires Standard(u) && "select" <= Mapped(u.lower, TrimLeft(u, s))
    ensures "select" <= Mapped(u.lower, TrimLeft(u, ReplaceAll(s, Placeholder(key), Positional(k))))
  {
    var out := ReplaceAll(s, Placeholder(key), Positional(k));
    if u.space(s[0]) {
      assert s[0] != ':';
      assert out[0] == s[0] && out[1..] == ReplaceAll(s[1..], Placeholder(key), Positional(k));
      SelectStays(u, s[1..], key, k);
    } else {
      assert u.lower(s[0]) == "select"[0] == 's';
      assert s[0] != ':';
      assert out[0] == s[0];
      PrefixStays(u, s, "select", key, k);
    }
  }

  // --- the verdict survives ----------------------------------------------------------------------

  lemma SafeAfterOne(u: Unicode, s: string, key: string, k: nat)
    requires Standard(u) && Safe(u, s)
    ensures Safe(u, ReplaceAll(s, Placeholder(key), Positional(k)))
  {
    hide Mapped, ReplaceAll, Contains, Trim, Positional;
    SelectAfterOne(u, s, key, k);
    forall w | w in ILLEGAL
      ensures !Contains(Mapped(u.lower, Trim(u, ReplaceAll(s, Placeholder(key), Positional(k)))), w)
    {
      IllegalAfterOne(u, s, key, k, w);
    }
  }

  lemma SelectAfterOne(u: Unicode, s: string, key: string, k: nat)
    requires Standard(u) && "select" <= Mapped(u.lower, Trim(u, s))
    ensures "select" <= Mapped(u.lower, Trim(u, ReplaceAll(s, Placeholder(key), Positional(k))))
  {
    hide Mapped, ReplaceAll, Positional, TrimLeft, TrimRight;
    var out := ReplaceAll(s, Placeholder(key), Positional(k));
    assert NoSpaces(u, "select") by {
      forall c | c in "select" ensures !u.space(c) {
        assert c as int < 128;
      }
    }
    TrimRightPrefix(u, TrimLeft(u, s), "select");
    SelectStays(u, s, key, k);
    TrimRightPrefix(u, TrimLeft(u, out), "select");
  }

  lemma IllegalAfterOne(u: Unicode, s: string, key: string, k: nat, w: string)
    requires Standard(u) && w in ILLEGAL && !Contains(Mapped(u.lower, Trim(u, s)), w)
    ensures !Contains(Mapped(u.lower, Trim(u, ReplaceAll(s, Placeholder(key), Positional(k)))), w)
  {
    IllegalWords(u, w);
    hide Mapped, ReplaceAll, Contains, Trim, Positional, NoSpaces, Outside;
    var out := ReplaceAll(s, Placeholder(key), Positional(k));
    TrimKeeps(u, s, w);
    TrimKeeps(u, out, w);
    if Contains(Mapped(u.lower, out), w) {
      OccurrenceSurvives(u.lower, s, Placeholder(key), k, w);
    }
  }

  /** Whatever the parameters and whatever the iteration order, rewriting a query that the filter
      accepts gives a query that the filter accepts. */
  lemma {:induction false} RewritingKeepsSafe(u: Unicode, sql: string, args: seq<string>, order: seq<string>,
                                              params: map<string, string>)
    requires Standard(u) && Safe(u, sql) && forall k :: k in order ==> k in params
    ensures Safe(u, Rewrite(sql, args, order, params).0)
    decreases |order|
  {
    hide Safe, ReplaceAll, Contains, Standard;
    if order == [] {
    } else {
      var key := order[0];
      if Contains(sql, Placeholder(key)) {
        SafeAfterOne(u, sql, key, |args| + 1);
        RewritingKeepsSafe(u, ReplaceAll(sql, Placeholder(key), Positional(|args| + 1)), args + [params[key]],
                           order[1..], params);
      } else {
        RewritingKeepsSafe(u, sql, args, order[1..], params);
      }
    }
  }

  /** The front of ExecuteSQL: a query is refused or rewritten. What reaches the database is still a
      query that the filter accepts, and it means what the caller wrote if no key is a proper prefix of
      a name and no `$n` of the caller is an argument position. */
  method Prepare(u: Unicode, raw: string, params: map<string, string>)
      returns (r: Result<(string, seq<string>), string>)
    requires Standard(u)
    ensures r.Success? <==> Safe(u, raw)
    ensures r.Success? ==> Safe(u, r.value.0)
    ensures r.Success? && (forall k :: k in params ==> IsName(k))
            && PrefixFree(raw, params.Keys) && PositionFree(raw, params.Keys)
            ==> EvalPositional(r.value.0, r.value.1) == EvalNamed(raw, params)
  {
    var ok := IsSafeSelect(u, raw);
    if !ok {
      return Failure("only SELECT queries are allowed");
    }
    var sql, args := PrepareQuery(raw, params);
    ghost var order :| RewrittenBy(raw, params, order, sql, args);
    RewritingKeepsSafe(u, raw, [], order, params);
    if (forall k :: k in params ==> IsName(k)) && PrefixFree(raw, params.Keys) {
      OneOrder(raw, params.Keys, order, params);
    }
    return Success((sql, args));
  }

  // --- queries that get past the filter and lose their meaning -----------------------------------

  /** A text that holds a word holds the word's first two characters side by side. */
  lemma {:induction false} FirstPair(s: string, w: string)
    requires |w| >= 2 && Contains(s, w)
    ensures exists i :: 0 <= i < |s| - 1 && s[i] == w[0] && s[i + 1] == w[1]
  {
    if w <= s {
      assert s[0] == w[0] && s[0 + 1] == w[1];
    } else {
      FirstPair(s[1..], w);
      var i :| 0 <= i < |s[1..]| - 1 && s[1..][i] == w[0] && s[1..][i + 1] == w[1];
      assert s[i + 1] == w[0] && s[i + 1 + 1] == w[1];
    }
  }

  lemma {:induction false} FirstChar(s: string, w: string)
    requires w != "" && Contains(s, w)
    ensures w[0] in s
  {
    if !(w <= s) {
      FirstChar(s[1..], w);
    }
  }

  predicate PlainChar(c: char) {
    c == ' ' || c == '$' || c == ',' || c == ':' || c == '1' || 'a' <= c <= 'z'
  }

  /** A lower-case ASCII text without white space at its ends and without the listed words is accepted. */
  lemma PlainIsSafe(u: Unicode, s: string)
    requires Standard(u) && "select" <= s && s[|s| - 1] != ' ' && forall c :: c in s ==> PlainChar(c)
    requires forall w :: w in ILLEGAL ==> !Contains(s, w)
    ensures Safe(u, s)
  {
    hide Mapped, Contains, TrimLeft, TrimRight;
    NotTrimmed(u, s);
    SameLower(u, s);
  }

  lemma NotTrimmed(u: Unicode, s: string)
    requires Standard(u) && "select" <= s && s[|s| - 1] != ' ' && forall c :: c in s ==> PlainChar(c)
    ensures Trim(u, s) == s
  {
    assert s[0] == "select"[0] == 's' && s[|s| - 1] in s;
    hide PlainChar;
    assert !u.space(s[0]);
    assert TrimLeft(u, s) == s;
    LastStays(u, s);
  }

  lemma LastStays(u: Unicode, s: string)
    requires Standard(u) && s != "" && s[|s| - 1] != ' ' && PlainChar(s[|s| - 1])
    ensures TrimRight(u, s) == s
  {
  }

  lemma {:induction false} SameLower(u: Unicode, s: string)
    requires Standard(u) && forall c :: c in s ==> PlainChar(c)
    ensures Mapped(u.lower, s) == s
  {
    if s == "" {
    } else {
      assert s[0] in s && forall c :: c in s[1..] ==> c in s;
      SameLower(u, s[1..]);
    }
  }

  /** The parameter `a` captures the start of `:ab`. */
  lemma PrefixClashExample(u: Unicode)
    requires Standard(u)
    ensures Safe(u, "select :ab") && !Faithful("select :ab", {"a"})
  {
    hide Lex, NoClash, Faithful, PositionFree, Safe, Contains;
    NoWords("select :ab");
    PlainIsSafe(u, "select :ab");
    ClashAfter("select ", "ab", "a");
    assert "select " + ":" + "ab" == "select :ab";
    MeaningPreserved("select :ab", {"a"});
  }

  lemma NoWords(s: string)
    requires s == "select :ab" || s == "select $1,:a"
    ensures forall w :: w in ILLEGAL ==> !Contains(s, w)
  {
    hide Contains;
    forall w | w in ILLEGAL
      ensures !Contains(s, w)
    {
      if Contains(s, w) {
        FirstChar(s, w);
        if |w| >= 2 {
          FirstPair(s, w);
        }
      }
    }
  }

  /** A raw `$1` becomes the first argument once a parameter is used. */
  lemma PositionClashExample(u: Unicode)
    requires Standard(u)
    ensures Safe(u, "select $1,:a") && !Faithful("select $1,:a", {"a"})
  {
    hide Lex, Value, Faithful, PrefixFree, Safe, Contains;
    var raw, keys := "select $1,:a", {"a"};
    NoWords(raw);
    PlainIsSafe(u, raw);
    LexRef("a", "");
    assert ":" + "a" + "" == ":a" && "," + ":a" == ",:a" && "$" + "1" + ",:a" == "$1,:a";
    LexCh(',', ":a");
    LexNum("1", ",:a");
    var rest := Lex(":a");
    assert Lex(",:a") == [Ch(',')] + rest && Lex("$1,:a") == [Num("1")] + ([Ch(',')] + rest);
    assert rest[0] == Ref("a") && Ref("a") in rest && Ref("a") in Lex("$1,:a") && Num("1") in Lex("$1,:a");
    TokensAfter("select ", "$1,:a");
    assert "select " + "$1,:a" == raw;
    assert "a" in UsedKeys(raw, keys) && UsedKeys(raw, keys) == keys;
    ValueDec(1);
    assert "1" == Dec(1);
    assert Hit(Num("1"), |UsedKeys(raw, keys)|);
    MeaningPreserved(raw, keys);
  }

  /** Text without names and positions in front changes nothing about the tokens that follow. */
  lemma {:induction false} TokensAfter(u: string, s: string)
    requires ':' !in u && '$' !in u
    ensures forall t :: t in Lex(s) ==> t in Lex(u + s)
  {
    if u == "" {
      assert u + s == s;
    } else {
      assert (u + s)[1..] == u[1..] + s;
      TokensAfter(u[1..], s);
      assert Lex(u + s) == [Ch(u[0])] + Lex(u[1..] + s);
    }
  }

  lemma {:induction false} ClashAfter(u: string, name: string, key: string)
    requires IsName(name) && key <= name && key != name && ':' !in u && '$' !in u
    ensures !NoClash(Lex(u + ":" + name), key)
  {
    if u == "" {
      assert u + ":" + name == ":" + name + "";
      LexRef(name, "");
      assert Ref(name) in Lex(u + ":" + name);
    } else {
      var s := u + ":" + name;
      assert s[1..] == u[1..] + ":" + name;
      ClashAfter(u[1..], name, key);
      assert Lex(s) == [Ch(s[0])] + Lex(s[1..]);
      var t :| t in Lex(s[1..]) && t.Ref? && key <= t.name && t.name != key;
      assert t in Lex(s);
    }
  }
}
