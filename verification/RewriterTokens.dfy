/** Textual replacement as substitution of tokens: one round, and the whole loop. */
module RewriterTokens {
  import opened Decimals
  import opened Rewriter
  import opened Wrappers

  // --- tokens and text ---------------------------------------------------------------------------

  function Text(t: Token): string {
    match t
    case Ch(c) => [c]
    case Ref(n) => ":" + n
    case Num(d) => "$" + d
    case Pos(k) => Positional(k)
  }

  function Render(ts: seq<Token>): string {
    if ts == [] then "" else Text(ts[0]) + Render(ts[1..])
  }

  predicate NoIdentFirst(s: string) {
    s == "" || !IsIdentChar(s[0])
  }

  predicate NoDigitFirst(s: string) {
    s == "" || !IsDigit(s[0])
  }

  /** Is t what the lexer reads in front of the text that follows. */
  predicate Fits(t: Token, following: string) {
    match t
    case Ch(c) => c != '$' && (c == ':' ==> NoIdentFirst(following))
    case Ref(n) => IsName(n) && NoIdentFirst(following)
    case Num(d) => AllDigits(d) && NoDigitFirst(following)
    case Pos(k) => NoDigitFirst(following)
  }

  predicate WellFormed(ts: seq<Token>) {
    ts == [] || (Fits(ts[0], Render(ts[1..])) && WellFormed(ts[1..]))
  }

  /** Text that may follow any token. */
  predicate Boundary(tail: string) {
    tail == "" || tail[0] == '$' || tail[0] == ':'
  }

  /** What the lexer makes of a token that was written out. */
  function Read(t: Token): Token {
    if t.Pos? then Num(Dec(t.k)) else t
  }

  function Plain(ts: seq<Token>): seq<Token> {
    if ts == [] then [] else [Read(ts[0])] + Plain(ts[1..])
  }

  lemma {:induction false} LexOk(s: string)
    ensures Render(Lex(s)) == s && WellFormed(Lex(s))
    ensures forall t :: t in Lex(s) ==> !t.Pos?
    decreases |s|
  {
    hide IdentLen, DigitLen, WellFormed, Render, Text;
    if s == "" {
      EmptyOk();
    } else {
      if s[0] == ':' && IdentLen(s[1..]) > 0 {
        var n := IdentLen(s[1..]);
        var name, rest := s[1..][..n], s[1..][n..];
        LexOk(rest);
        assert s == ":" + name + rest;
        PrependToken(Ref(name), Lex(rest));
      } else if s[0] == '$' {
        var n := DigitLen(s[1..]);
        var digits, rest := s[1..][..n], s[1..][n..];
        LexOk(rest);
        assert s == "$" + digits + rest;
        PrependToken(Num(digits), Lex(rest));
      } else {
        LexOk(s[1..]);
        assert s == [s[0]] + s[1..];
        assert s[0] == ':' ==> NoIdentFirst(s[1..]);
        PrependToken(Ch(s[0]), Lex(s[1..]));
      }
    }
  }

  lemma EmptyOk()
    ensures Render([]) == "" && WellFormed([])
  {
  }

  lemma PrependToken(t: Token, ts: seq<Token>)
    requires Fits(t, Render(ts)) && WellFormed(ts) && !t.Pos? && forall x :: x in ts ==> !x.Pos?
    ensures Render([t] + ts) == Text(t) + Render(ts) && WellFormed([t] + ts)
    ensures t.Ch? ==> Text(t) == [t.c]
    ensures t.Ref? ==> Text(t) == ":" + t.name
    ensures t.Num? ==> Text(t) == "$" + t.digits
    ensures forall x :: x in [t] + ts ==> !x.Pos?
  {
    assert ([t] + ts)[1..] == ts;
  }

  lemma {:induction false} IdentLenIs(n: string, following: string)
    requires (forall c :: c in n ==> IsIdentChar(c)) && NoIdentFirst(following)
    ensures IdentLen(n + following) == |n|
  {
    if n == "" {
      assert n + following == following;
    } else {
      assert (n + following)[1..] == n[1..] + following;
      IdentLenIs(n[1..], following);
    }
  }

  lemma {:induction false} DigitLenIs(d: string, following: string)
    requires AllDigits(d) && NoDigitFirst(following)
    ensures DigitLen(d + following) == |d|
  {
    if d == "" {
      assert d + following == following;
    } else {
      assert (d + following)[1..] == d[1..] + following;
      DigitLenIs(d[1..], following);
    }
  }

  lemma LexCh(c: char, following: string)
    requires Fits(Ch(c), following)
    ensures Lex([c] + following) == [Ch(c)] + Lex(following)
  {
    hide DigitLen;
    assert ([c] + following)[1..] == following;
  }

  lemma LexRef(n: string, following: string)
    requires IsName(n) && NoIdentFirst(following)
    ensures Lex(":" + n + following) == [Ref(n)] + Lex(following)
  {
    hide IdentLen;
    var s := ":" + n + following;
    IdentLenIs(n, following);
    assert s[1..] == n + following;
    assert s[1..][..|n|] == n && s[1..][|n|..] == following;
  }

  lemma LexNum(d: string, following: string)
    requires AllDigits(d) && NoDigitFirst(following)
    ensures Lex("$" + d + following) == [Num(d)] + Lex(following)
  {
    hide DigitLen;
    var s := "$" + d + following;
    DigitLenIs(d, following);
    assert s[1..] == d + following;
    assert s[1..][..|d|] == d && s[1..][|d|..] == following;
  }

  lemma LexHead(t: Token, following: string)
    requires Fits(t, following)
    ensures Lex(Text(t) + following) == [Read(t)] + Lex(following)
  {
    hide Lex, Dec;
    match t
    case Ch(c) => LexCh(c, following);
    case Ref(n) => LexRef(n, following);
    case Num(d) => LexNum(d, following);
    case Pos(k) => LexNum(Dec(k), following);
  }

  lemma FitsBefore(t: Token, following: string, tail: string)
    requires Fits(t, following) && Boundary(tail)
    ensures Fits(t, following + tail)
  {
    if following == "" {
      assert following + tail == tail;
    } else {
      assert (following + tail)[0] == following[0];
    }
  }

  /** Reading rendered tokens gives them back. */
  lemma {:induction false} LexRender(ts: seq<Token>, tail: string)
    requires WellFormed(ts) && Boundary(tail)
    ensures Lex(Render(ts) + tail) == Plain(ts) + Lex(tail)
  {
    hide Lex, Dec, Text, Fits, Read;
    if ts == [] {
      assert Render(ts) + tail == tail;
    } else {
      var t, rest := ts[0], ts[1..];
      LexRender(rest, tail);
      assert Render(ts) + tail == Text(t) + (Render(rest) + tail);
      FitsBefore(t, Render(rest), tail);
      LexHead(t, Render(rest) + tail);
    }
  }

  // --- one replacement, on tokens ----------------------------------------------------------------

  function SubstOne(t: Token, key: string, k: nat): Token {
    if t == Ref(key) then Pos(k) else t
  }

  function Subst(ts: seq<Token>, key: string, k: nat): seq<Token> {
    if ts == [] then [] else [SubstOne(ts[0], key, k)] + Subst(ts[1..], key, k)
  }

  /** No name of the text goes on after the key. */
  predicate NoClash(ts: seq<Token>, key: string) {
    forall t :: t in ts && t.Ref? && key <= t.name ==> t.name == key
  }

  lemma {:induction false} PassThrough(u: string, s: string, pat: string, rep: string)
    requires pat != "" && pat[0] == ':' && ':' !in u
    ensures ReplaceAll(u + s, pat, rep) == u + ReplaceAll(s, pat, rep)
    ensures Contains(u + s, pat) <==> Contains(s, pat)
  {
    if u == "" {
      assert u + s == s;
    } else {
      assert (u + s)[1..] == u[1..] + s;
      PassThrough(u[1..], s, pat, rep);
    }
  }

  /** No name ends inside a text that does not start with it. */
  lemma NoMatch(name: string, following: string, key: string)
    requires (name == "" || IsName(name)) && IsName(key) && NoIdentFirst(following)
    requires key <= name ==> name == key
    requires name != key
    ensures !(Placeholder(key) <= ":" + name + following)
  {
    var p, s := Placeholder(key), ":" + name + following;
    assert p[1..] == key;
    if |key| <= |name| {
      assert s[1..|p|] == name[..|key|] != key;
      assert s[..|p|][1..] == s[1..|p|];
    } else if following != "" {
      assert s[1 + |name|] == following[0];
      assert p[1 + |name|] == key[|name|] && key[|name|] in key;
    }
  }

  lemma ReplaceHead(t: Token, following: string, key: string, k: nat)
    requires Fits(t, following) && IsName(key)
    requires t.Ref? && key <= t.name ==> t.name == key
    ensures ReplaceAll(Text(t) + following, Placeholder(key), Positional(k))
         == Text(SubstOne(t, key, k))
            + ReplaceAll(following, Placeholder(key), Positional(k))
    ensures Contains(Text(t) + following, Placeholder(key)) <==>
              t == Ref(key) || Contains(following, Placeholder(key))
  {
    hide Dec;
    var pat, rep, s := Placeholder(key), Positional(k), Text(t) + following;
    match t
    case Ch(c) =>
      assert s[1..] == following;
      if c == ':' {
        NoMatch("", following, key);
        assert s == ":" + "" + following;
      }
    case Ref(n) => ReplaceRef(n, following, key, k);
    case Num(d) => PassThrough("$" + d, following, pat, rep);
    case Pos(j) => PassThrough(Positional(j), following, pat, rep);
  }

  lemma ReplaceRef(n: string, following: string, key: string, k: nat)
    requires Fits(Ref(n), following) && IsName(key) && (key <= n ==> n == key)
    ensures ReplaceAll(":" + n + following, Placeholder(key), Positional(k))
         == Text(if n == key then Pos(k) else Ref(n)) + ReplaceAll(following, Placeholder(key), Positional(k))
    ensures Contains(":" + n + following, Placeholder(key)) <==>
              n == key || Contains(following, Placeholder(key))
  {
    hide Dec;
    var pat, rep, s := Placeholder(key), Positional(k), ":" + n + following;
    if n == key {
      assert pat <= s && s[|pat|..] == following;
    } else {
      NoMatch(n, following, key);
      assert s[1..] == n + following;
      PassThrough(n, following, pat, rep);
      assert [':'] + (n + ReplaceAll(following, pat, rep)) == ":" + n + ReplaceAll(following, pat, rep);
    }
  }

  /** A substitution never puts an identifier character in front. */
  lemma SubstFirst(ts: seq<Token>, key: string, k: nat)
    ensures NoIdentFirst(Render(ts)) ==> NoIdentFirst(Render(Subst(ts, key, k)))
    ensures NoDigitFirst(Render(ts)) ==> NoDigitFirst(Render(Subst(ts, key, k)))
  {
  }

  lemma {:induction false} SubstWellFormed(ts: seq<Token>, key: string, k: nat)
    requires WellFormed(ts)
    ensures WellFormed(Subst(ts, key, k))
  {
    hide Render;
    if ts == [] {
    } else {
      SubstWellFormed(ts[1..], key, k);
      SubstFirst(ts[1..], key, k);
      assert Subst(ts, key, k)[1..] == Subst(ts[1..], key, k);
    }
  }

  lemma Assoc(a: string, b: string, c: string)
    ensures a + (b + c) == (a + b) + c
  {
  }

  /** A textual replacement is a substitution of tokens. */
  lemma {:induction false} ReplaceTokens(ts: seq<Token>, tail: string, key: string, k: nat)
    requires WellFormed(ts) && Boundary(tail) && IsName(key) && NoClash(ts, key)
    ensures ReplaceAll(Render(ts) + tail, Placeholder(key), Positional(k))
         == Render(Subst(ts, key, k)) + ReplaceAll(tail, Placeholder(key), Positional(k))
  {
    var pat, rep := Placeholder(key), Positional(k);
    assert pat != "";
    hide Dec, ReplaceAll, Contains, Text, Placeholder, Positional, Fits, SubstOne, IsName;
    var after := ReplaceAll(tail, pat, rep);
    if ts == [] {
      assert Render(ts) + tail == tail;
      assert Render(Subst(ts, key, k)) + after == after;
    } else {
      var t, rest := ts[0], ts[1..];
      ReplaceTokens(rest, tail, key, k);
      assert [t] + rest == ts;
      ReplaceFirst(t, rest, tail, key, k);
      var t', done := Text(SubstOne(t, key, k)), Render(Subst(rest, key, k));
      assert Render(Subst(ts, key, k)) == t' + done by {
        assert Subst(ts, key, k)[1..] == Subst(rest, key, k);
      }
      Assoc(t', done, after);
    }
  }

  /** Is the parameter used: in the tokens, or in the text that follows them. */
  lemma {:induction false} ContainsTokens(ts: seq<Token>, tail: string, key: string)
    requires WellFormed(ts) && Boundary(tail) && IsName(key) && NoClash(ts, key)
    ensures Contains(Render(ts) + tail, Placeholder(key)) <==>
              Ref(key) in ts || Contains(tail, Placeholder(key))
  {
    hide Dec, ReplaceAll, Contains, Text, Placeholder, Positional, Fits, SubstOne, IsName;
    if ts == [] {
      assert Render(ts) + tail == tail;
    } else {
      ContainsTokens(ts[1..], tail, key);
      assert [ts[0]] + ts[1..] == ts;
      ReplaceFirst(ts[0], ts[1..], tail, key, 0);
    }
  }

  lemma ReplaceFirst(t: Token, rest: seq<Token>, tail: string, key: string, k: nat)
    requires Fits(t, Render(rest)) && Boundary(tail) && IsName(key) && NoClash([t], key)
    ensures Placeholder(key) != ""
    ensures ReplaceAll(Render([t] + rest) + tail, Placeholder(key), Positional(k))
         == Text(SubstOne(t, key, k)) + ReplaceAll(Render(rest) + tail, Placeholder(key), Positional(k))
    ensures Contains(Render([t] + rest) + tail, Placeholder(key)) <==>
              t == Ref(key) || Contains(Render(rest) + tail, Placeholder(key))
  {
    hide ReplaceAll, Contains, Text, Positional, Fits, SubstOne;
    FitsBefore(t, Render(rest), tail);
    assert t in [t];
    ReplaceHead(t, Render(rest) + tail, key, k);
    assert ([t] + rest)[1..] == rest;
    assert Render([t] + rest) + tail == Text(t) + (Render(rest) + tail);
  }

  lemma {:induction false} SubstAt(ts: seq<Token>, key: string, k: nat)
    ensures |Subst(ts, key, k)| == |ts|
    ensures forall i :: 0 <= i < |ts| ==> Subst(ts, key, k)[i] == SubstOne(ts[i], key, k)
  {
    if ts == [] {
    } else {
      SubstAt(ts[1..], key, k);
    }
  }

  lemma BoundaryStays(tail: string, key: string, k: nat)
    requires Boundary(tail)
    ensures var after := ReplaceAll(tail, Placeholder(key), Positional(k));
      && Boundary(after)
      && (tail == "" ==> after == "")
      && ("$1" <= tail ==> "$1" <= after)
      && (Placeholder(key) <= tail ==> Positional(k) <= after)
  {
    hide Dec;
    if "$1" <= tail {
      assert tail == "$1" + tail[2..];
      PassThrough("$1", tail[2..], Placeholder(key), Positional(k));
    }
  }

  // --- the whole loop, on tokens -----------------------------------------------------------------

  /** What became of a token: the names of the given keys point at their arguments. */
  predicate Resolved(t: Token, t': Token, args: seq<string>, order: seq<string>, params: map<string, string>) {
    if t.Ref? && t.name in order then
      t.name in params && t'.Pos? && 1 <= t'.k <= |args| && args[t'.k - 1] == params[t.name]
    else t' == t
  }

  predicate AllResolved(ts: seq<Token>, ts': seq<Token>, args: seq<string>, order: seq<string>,
                        params: map<string, string>) {
    |ts'| == |ts| && forall i :: 0 <= i < |ts| ==> Resolved(ts[i], ts'[i], args, order, params)
  }

  /** The keys that occur as names, in the order of the loop. */
  function Used(order: seq<string>, ts: seq<Token>): (r: seq<string>)
    ensures forall k :: k in r <==> k in order && Ref(k) in ts
  {
    if order == [] then []
    else (if Ref(order[0]) in ts then [order[0]] else []) + Used(order[1..], ts)
  }

  function Values(keys: seq<string>, params: map<string, string>): (r: seq<string>)
    requires forall k :: k in keys ==> k in params
    ensures |r| == |keys|
  {
    if keys == [] then [] else [params[keys[0]]] + Values(keys[1..], params)
  }

  lemma ValuesCons(key: string, keys: seq<string>, params: map<string, string>)
    requires key in params && forall k :: k in keys ==> k in params
    ensures Values([key] + keys, params) == [params[key]] + Values(keys, params)
  {
    assert ([key] + keys)[1..] == keys;
  }

  lemma PrefixContains(s: string, p: string)
    ensures p <= s ==> Contains(s, p)
  {
  }

  lemma {:induction false} UsedSubst(order: seq<string>, ts: seq<Token>, key: string, k: nat)
    requires key !in order
    ensures Used(order, Subst(ts, key, k)) == Used(order, ts)
  {
    SubstAt(ts, key, k);
    if order == [] {
    } else {
      UsedSubst(order[1..], ts, key, k);
      var ts' := Subst(ts, key, k);
      if Ref(order[0]) in ts {
        var i :| 0 <= i < |ts| && ts[i] == Ref(order[0]);
        assert ts'[i] == Ref(order[0]);
      }
    }
  }

  lemma ResolvedStep(ts: seq<Token>, ts': seq<Token>, args: seq<string>, order: seq<string>,
                     params: map<string, string>, k: nat)
    requires order != [] && order[0] in params && 1 <= k <= |args| && args[k - 1] == params[order[0]]
    requires AllResolved(Subst(ts, order[0], k), ts', args, order[1..], params)
    ensures AllResolved(ts, ts', args, order, params)
  {
    SubstAt(ts, order[0], k);
    assert forall n :: n in order <==> n == order[0] || n in order[1..];
  }

  /** The arguments are those of the used keys, and each has its position in the text. */
  ghost predicate Complete(ts: seq<Token>, args: seq<string>, order: seq<string>, params: map<string, string>,
                           ts': seq<Token>, args': seq<string>) {
    && (forall k :: k in order ==> k in params)
    && args' == args + Values(Used(order, ts), params)
    && forall k :: |args| < k <= |args'| ==> Pos(k) in ts'
  }

  /** What the loop does to tokenised text, whatever follows it. */
  ghost predicate LoopOutcome(ts: seq<Token>, tail: string, args: seq<string>, order: seq<string>,
                              params: map<string, string>, ts': seq<Token>, tail': string, args': seq<string>) {
    && WellFormed(ts') && Boundary(tail') && args <= args'
    && AllResolved(ts, ts', args', order, params)
    && ("$1" <= tail ==> "$1" <= tail')
    && (tail == "" ==> tail' == "" && Complete(ts, args, order, params, ts', args'))
    && (order != [] && order[0] in params && args == [] && Placeholder(order[0]) <= tail ==>
          "$1" <= tail' && args' != [] && args'[0] == params[order[0]])
  }

  ghost predicate NoClashes(ts: seq<Token>, order: seq<string>) {
    forall k :: k in order ==> IsName(k) && NoClash(ts, k)
  }

  lemma SubstNoClashes(ts: seq<Token>, order: seq<string>, key: string, k: nat)
    requires NoClashes(ts, order)
    ensures NoClashes(Subst(ts, key, k), order)
  {
    SubstAt(ts, key, k);
    var ts' := Subst(ts, key, k);
    forall k, t | k in order && t in ts' && t.Ref? && k <= t.name ensures t.name == k {
      var i :| 0 <= i < |ts'| && ts'[i] == t;
      assert ts[i] == t;
    }
  }

  lemma {:induction false} LoopTokens(ts: seq<Token>, tail: string, args: seq<string>, order: seq<string>,
                                      params: map<string, string>)
      returns (ts': seq<Token>, tail': string)
    requires WellFormed(ts) && Boundary(tail) && NoClashes(ts, order) && NoDuplicates(order)
    requires forall k :: k in order ==> k in params
    ensures var r := Rewrite(Render(ts) + tail, args, order, params);
      r.0 == Render(ts') + tail' && LoopOutcome(ts, tail, args, order, params, ts', tail', r.1)
    decreases |order|, 1
  {
    hide WellFormed, Boundary, Render, ReplaceAll, Contains, Positional, Subst;
    if order == [] {
      ts', tail' := ts, tail;
    } else {
      var key, k := order[0], |args| + 1;
      var rest := order[1..];
      assert key !in rest && IsName(key) && NoClash(ts, key) && NoClashes(ts, rest) && NoDuplicates(rest);
      ContainsTokens(ts, tail, key);
      if Contains(Render(ts) + tail, Placeholder(key)) {
        ts', tail' := LoopReplaced(ts, tail, args, order, params);
      } else {
        ts', tail' := LoopTokens(ts, tail, args, rest, params);
        PrefixContains(tail, Placeholder(key));
        LoopSkipped(ts, tail, args, order, params, ts', tail', Rewrite(Render(ts) + tail, args, rest, params).1);
      }
    }
  }

  /** A key that does not occur changes nothing. */
  lemma LoopSkipped(ts: seq<Token>, tail: string, args: seq<string>, order: seq<string>,
                    params: map<string, string>, ts': seq<Token>, tail': string, args': seq<string>)
    requires order != [] && Ref(order[0]) !in ts && !(Placeholder(order[0]) <= tail)
    requires forall k :: k in order ==> k in params
    requires LoopOutcome(ts, tail, args, order[1..], params, ts', tail', args')
    ensures LoopOutcome(ts, tail, args, order, params, ts', tail', args')
  {
    hide WellFormed, Boundary;
    assert forall n :: n in order <==> n == order[0] || n in order[1..];
    assert Used(order, ts) == Used(order[1..], ts);
    forall i | 0 <= i < |ts| ensures Resolved(ts[i], ts'[i], args', order, params) {
      assert ts[i] in ts;
      assert Resolved(ts[i], ts'[i], args', order[1..], params);
    }
  }

  /** One round that replaces, and the rounds that follow it. */
  lemma {:induction false} LoopReplaced(ts: seq<Token>, tail: string, args: seq<string>, order: seq<string>,
                                        params: map<string, string>)
      returns (ts': seq<Token>, tail': string)
    requires WellFormed(ts) && Boundary(tail) && NoClashes(ts, order) && NoDuplicates(order)
    requires forall k :: k in order ==> k in params
    requires order != [] && Contains(Render(ts) + tail, Placeholder(order[0]))
    ensures var r := Rewrite(Render(ts) + tail, args, order, params);
      r.0 == Render(ts') + tail' && LoopOutcome(ts, tail, args, order, params, ts', tail', r.1)
    decreases |order|, 0
  {
    var key, k := order[0], |args| + 1;
    var rest := order[1..];
    assert key !in rest && IsName(key) && NoClash(ts, key) && NoClashes(ts, rest) && NoDuplicates(rest);
    ReplaceTokens(ts, tail, key, k);
    BoundaryStays(tail, key, k);
    SubstWellFormed(ts, key, k);
    SubstNoClashes(ts, rest, key, k);
    ContainsTokens(ts, tail, key);
    assert tail == "" ==> Ref(key) in ts;
    var ts1, tail1 := Subst(ts, key, k), ReplaceAll(tail, Placeholder(key), Positional(k));
    var args1 := args + [params[key]];
    hide LoopOutcome, NoClashes, NoClash, NoDuplicates, IsName, WellFormed, Boundary, Render, Subst, ReplaceAll,
         Contains;
    ts', tail' := LoopTokens(ts1, tail1, args1, rest, params);
    LoopCombine(ts, tail, args, order, params, ts', tail', Rewrite(Render(ts1) + tail1, args1, rest, params).1);
  }

  lemma LoopCombine(ts: seq<Token>, tail: string, args: seq<string>, order: seq<string>,
                    params: map<string, string>, ts': seq<Token>, tail': string, args': seq<string>)
    requires order != [] && order[0] !in order[1..] && forall n :: n in order ==> n in params
    requires Boundary(tail) && (tail == "" ==> Ref(order[0]) in ts)
    requires LoopOutcome(Subst(ts, order[0], |args| + 1),
                         ReplaceAll(tail, Placeholder(order[0]), Positional(|args| + 1)),
                         args + [params[order[0]]], order[1..], params, ts', tail', args')
    ensures LoopOutcome(ts, tail, args, order, params, ts', tail', args')
  {
    var key, k, rest := order[0], |args| + 1, order[1..];
    var args1 := args + [params[key]];
    BoundaryStays(tail, key, k);
    UsedSubst(rest, ts, key, k);
    assert Positional(1) == "$1";
    assert args' != [] && args <= args' && args'[k - 1] == params[key];
    hide WellFormed, Boundary, Subst, ReplaceAll, Positional, Placeholder, Used, Values, Complete, AllResolved;
    ResolvedStep(ts, ts', args', order, params, k);
    if tail == "" {
      assert Complete(Subst(ts, key, k), args1, rest, params, ts', args');
      CompleteStep(ts, args, order, params, ts', args');
    }
  }

  lemma CompleteStep(ts: seq<Token>, args: seq<string>, order: seq<string>, params: map<string, string>,
                     ts': seq<Token>, args': seq<string>)
    requires order != [] && order[0] !in order[1..] && Ref(order[0]) in ts && forall n :: n in order ==> n in params
    requires AllResolved(Subst(ts, order[0], |args| + 1), ts', args', order[1..], params)
    requires Complete(Subst(ts, order[0], |args| + 1), args + [params[order[0]]], order[1..], params, ts', args')
    ensures Complete(ts, args, order, params, ts', args')
  {
    hide Used, Values, Subst, AllResolved;
    UsedSubst(order[1..], ts, order[0], |args| + 1);
    LoopArguments(ts, args, args', order, params);
    LoopPosition(ts, ts', args', order, params, |args| + 1);
  }

  /** The argument that one round adds comes before those of the later rounds. */
  lemma LoopArguments(ts: seq<Token>, args: seq<string>, args': seq<string>, order: seq<string>,
                      params: map<string, string>)
    requires order != [] && Ref(order[0]) in ts && forall n :: n in order ==> n in params
    requires args' == args + [params[order[0]]] + Values(Used(order[1..], ts), params)
    ensures args' == args + Values(Used(order, ts), params)
  {
    hide Used, Values;
    var key, rest := order[0], Used(order[1..], ts);
    UsedFirst(order, ts);
    ValuesCons(key, rest, params);
    AssocArgs(args, [params[key]], Values(rest, params));
  }

  lemma UsedFirst(order: seq<string>, ts: seq<Token>)
    requires order != [] && Ref(order[0]) in ts
    ensures Used(order, ts) == [order[0]] + Used(order[1..], ts)
  {
  }

  lemma AssocArgs(a: seq<string>, b: seq<string>, c: seq<string>)
    ensures a + b + c == a + (b + c)
  {
  }

  /** The position that one round writes is still there after the later rounds. */
  lemma LoopPosition(ts: seq<Token>, ts': seq<Token>, args': seq<string>, order: seq<string>,
                     params: map<string, string>, k: nat)
    requires order != [] && Ref(order[0]) in ts
    requires AllResolved(Subst(ts, order[0], k), ts', args', order[1..], params)
    ensures Pos(k) in ts'
  {
    SubstAt(ts, order[0], k);
    hide Subst;
    var i :| 0 <= i < |ts| && ts[i] == Ref(order[0]);
    assert Resolved(Subst(ts, order[0], k)[i], ts'[i], args', order[1..], params);
    assert ts'[i] == Pos(k);
  }

  // --- the two meanings, token by token ----------------------------------------------------------

  /** Does `$digits` of the raw text collide with an argument position. */
  predicate Hit(t: Token, n: nat) {
    t.Num? && AllDigits(t.digits) && 1 <= Value(t.digits) <= n
  }

  lemma {:induction false} PositionalAppend(a: seq<Token>, b: seq<Token>, args: seq<string>)
    ensures PositionalItems(a + b, args) == PositionalItems(a, args) + PositionalItems(b, args)
  {
    hide PositionalItem;
    if a == [] {
      assert a + b == b;
    } else {
      assert (a + b)[1..] == a[1..] + b;
      PositionalAppend(a[1..], b, args);
    }
  }

  lemma {:induction false} NamedAppend(a: seq<Token>, b: seq<Token>, params: map<string, string>)
    ensures NamedItems(a + b, params) == NamedItems(a, params) + NamedItems(b, params)
  {
    hide NamedItem;
    if a == [] {
      assert a + b == b;
    } else {
      assert (a + b)[1..] == a[1..] + b;
      NamedAppend(a[1..], b, params);
    }
  }

  /** One token means the same on both sides unless it is a raw `$n` that hits an argument; then
      the two meanings differ at once. */
  lemma TokenAgrees(t: Token, t': Token, args: seq<string>, order: seq<string>, params: map<string, string>)
    requires !t.Pos? && (forall k :: k in params ==> k in order)
    requires Resolved(t, t', args, order, params)
    ensures PositionalItem(Read(t'), args) != [] && NamedItem(t, params) != []
    ensures if Hit(t, |args|) then PositionalItem(Read(t'), args)[0] != NamedItem(t, params)[0]
            else PositionalItem(Read(t'), args) == NamedItem(t, params)
  {
    hide Value, Dec;
    if t'.Pos? {
      ValueDec(t'.k);
    }
  }

  lemma {:induction false} ItemsAgree(ts: seq<Token>, ts': seq<Token>, args: seq<string>, order: seq<string>,
                                      params: map<string, string>, a: seq<Item>, b: seq<Item>)
    requires AllResolved(ts, ts', args, order, params)
    requires forall k :: k in params ==> k in order
    requires forall t :: t in ts ==> !t.Pos?
    ensures PositionalItems(Plain(ts'), args) + a == NamedItems(ts, params) + b
            <==> a == b && forall t :: t in ts ==> !Hit(t, |args|)
  {
    hide PositionalItem, NamedItem, Read, Hit, Resolved;
    if ts == [] {
      assert PositionalItems(Plain(ts'), args) + a == a;
      assert NamedItems(ts, params) + b == b;
    } else {
      TokenAgrees(ts[0], ts'[0], args, order, params);
      ItemsAgree(ts[1..], ts'[1..], args, order, params, a, b);
      var p, n := PositionalItem(Read(ts'[0]), args), NamedItem(ts[0], params);
      var ps, ns := PositionalItems(Plain(ts'[1..]), args), NamedItems(ts[1..], params);
      assert PositionalItems(Plain(ts'), args) + a == p + (ps + a);
      assert NamedItems(ts, params) + b == n + (ns + b);
      assert ts[0] in ts;
      if !Hit(ts[0], |args|) {
        Cancel(p, ps + a, ns + b);
        assert forall t :: t in ts <==> t == ts[0] || t in ts[1..];
      } else {
        assert (p + (ps + a))[0] != (n + (ns + b))[0];
      }
    }
  }

  lemma Cancel(p: seq<Item>, x: seq<Item>, y: seq<Item>)
    ensures p + x == p + y <==> x == y
  {
    assert (p + x)[|p|..] == x && (p + y)[|p|..] == y;
  }
}
