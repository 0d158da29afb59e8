/** When the rewritten query means what the raw query means. */
module RewriterMeaning {
  import opened Decimals
  import opened Occurrences
  import opened Rewriter
  import opened RewriterTokens
  import opened Wrappers

  lemma {:induction false} MappedId(s: string)
    ensures Mapped(c => c, s) == s
  {
  }

  /** Replacing a placeholder leaves none of it, and brings no other into being. */
  lemma ReplacedGone(s: string, key: string, k: nat, name: string)
    requires IsName(key) && IsName(name)
    requires key <= name || !Contains(s, Placeholder(name))
    ensures !Contains(ReplaceAll(s, Placeholder(key), Positional(k)), Placeholder(name))
  {
    var out := ReplaceAll(s, Placeholder(key), Positional(k));
    MappedId(s);
    MappedId(out);
    if key <= name {
      NoneLeft(s, key, k);
      if Contains(out, Placeholder(name)) {
        ContainsShorter(out, Placeholder(name), Placeholder(key));
      }
    } else if Contains(out, Placeholder(name)) {
      OccurrenceSurvives(c => c, s, Placeholder(key), k, Placeholder(name));
    }
  }

  lemma {:induction false} ContainsShorter(s: string, p: string, q: string)
    requires Contains(s, p) && q <= p
    ensures Contains(s, q)
  {
    if !(p <= s) {
      ContainsShorter(s[1..], p, q);
    }
  }

  lemma {:induction false} NoneLeft(s: string, key: string, k: nat)
    requires IsName(key)
    ensures !Contains(ReplaceAll(s, Placeholder(key), Positional(k)), Placeholder(key))
    decreases |s|
  {
    hide Dec;
    var pat := Placeholder(key);
    if s == "" {
    } else {
      var out := ReplaceAll(s, pat, Positional(k));
      if pat <= s {
        var rest := ReplaceAll(s[|pat|..], pat, Positional(k));
        NoneLeft(s[|pat|..], key, k);
        PassThrough(Positional(k), rest, pat, pat);
      } else {
        NoneLeft(s[1..], key, k);
        assert out[1..] == ReplaceAll(s[1..], pat, Positional(k));
        if pat <= out {
          MappedId(s);
          MappedId(out);
          PrefixSurvives(c => c, s, pat, k, pat);
        }
      }
    }
  }

  /** A name that does not occur is not among the arguments. */
  lemma {:induction false} NeverUsed(sql: string, args: seq<string>, order: seq<string>,
                                     params: map<string, string>, name: string)
    requires forall k :: k in order ==> IsName(k) && k in params && params[k] == k
    requires IsName(name) && name !in args && !Contains(sql, Placeholder(name))
    ensures name !in Rewrite(sql, args, order, params).1
    decreases |order|
  {
    hide ReplaceAll, Contains, Positional;
    if order == [] {
    } else {
      var key := order[0];
      if Contains(sql, Placeholder(key)) {
        ReplacedGone(sql, key, |args| + 1, name);
        NeverUsed(ReplaceAll(sql, Placeholder(key), Positional(|args| + 1)), args + [params[key]], order[1..],
                  params, name);
      } else {
        NeverUsed(sql, args, order[1..], params, name);
      }
    }
  }

  // --- when the meaning is preserved -------------------------------------------------------------

  lemma {:induction false} LeadingOne(d: string)
    requires AllDigits(d) && d != "" && d[0] == '1'
    ensures Value(d) == 1 || Value(d) >= 10
  {
    if |d| == 1 {
      assert d[..0] == "";
    } else {
      assert AllDigits(d[..|d| - 1]);
      LeadingOne(d[..|d| - 1]);
    }
  }

  /** Text that starts with `$1` is read as a position that is 1 or at least 10. */
  lemma LexOne(s: string) returns (d: string)
    requires "$1" <= s
    ensures AllDigits(d) && (Value(d) == 1 || Value(d) >= 10)
    ensures exists rest :: Lex(s) == [Num(d)] + rest
  {
    assert s[0] == '$' && s[1] == '1';
    var n := DigitLen(s[1..]);
    d := s[1..][..n];
    assert s[1..][0] == '1';
    assert n > 0 && d[0] == '1';
    assert AllDigits(d);
    LeadingOne(d);
    assert Lex(s) == [Num(d)] + Lex(s[1..][n..]);
  }

  lemma {:induction false} RenderAppend(a: seq<Token>, b: seq<Token>)
    ensures Render(a + b) == Render(a) + Render(b)
  {
    hide Text;
    if a == [] {
      assert a + b == b;
    } else {
      assert (a + b)[1..] == a[1..] + b;
      RenderAppend(a[1..], b);
    }
  }

  lemma {:induction false} WellFormedPrefix(a: seq<Token>, b: seq<Token>)
    requires WellFormed(a + b)
    ensures WellFormed(a)
  {
    hide Text, Render;
    if a == [] {
    } else {
      assert (a + b)[1..] == a[1..] + b;
      WellFormedPrefix(a[1..], b);
      RenderAppend(a[1..], b);
      FitsWithout(a[0], Render(a[1..]), Render(b));
    }
  }

  lemma FitsWithout(t: Token, following: string, tail: string)
    requires Fits(t, following + tail)
    ensures Fits(t, following)
  {
    if following != "" {
      assert (following + tail)[0] == following[0];
    }
  }

  lemma {:induction false} EnumerateSet(keys: set<string>) returns (order: seq<string>)
    ensures Enumerates(order, keys)
    decreases |keys|
  {
    if keys == {} {
      order := [];
    } else {
      var k :| k in keys;
      var rest := EnumerateSet(keys - {k});
      order := [k] + rest;
    }
  }

  lemma {:induction false} UsedCount(order: seq<string>, ts: seq<Token>)
    requires NoDuplicates(order)
    ensures |Used(order, ts)| == |set k | k in order && Ref(k) in ts|
  {
    if order == [] {
    } else {
      var rest := order[1..];
      UsedCount(rest, ts);
      var now, later := set k | k in order && Ref(k) in ts, set k | k in rest && Ref(k) in ts;
      assert forall k :: k in order <==> k == order[0] || k in rest;
      assert order[0] !in rest;
      hide NoDuplicates;
      if Ref(order[0]) in ts {
        assert now == later + {order[0]};
      } else {
        assert now == later;
      }
    }
  }

  function UsedKeys(raw: string, keys: set<string>): set<string> {
    set k | k in keys && Ref(k) in Lex(raw)
  }

  ghost predicate SameMeaning(raw: string, order: seq<string>, params: map<string, string>)
    requires forall k :: k in order ==> k in params
  {
    var r := Rewrite(raw, [], order, params);
    EvalPositional(r.0, r.1) == EvalNamed(raw, params)
  }

  /** For every choice of values and every order of the loop the meaning is kept. */
  ghost predicate Faithful(raw: string, keys: set<string>) {
    forall params: map<string, string>, order: seq<string> ::
      params.Keys == keys && Enumerates(order, keys) ==> SameMeaning(raw, order, params)
  }

  /** No key is a proper prefix of a name of the text. */
  ghost predicate PrefixFree(raw: string, keys: set<string>) {
    forall k :: k in keys ==> NoClash(Lex(raw), k)
  }

  /** No `$n` of the text is the position of an argument. */
  ghost predicate PositionFree(raw: string, keys: set<string>) {
    forall t :: t in Lex(raw) ==> !Hit(t, |UsedKeys(raw, keys)|)
  }

  /** Without a clash of prefixes, one run of the loop keeps the meaning exactly if no raw `$n` is an
      argument position. The arguments are the values of the used keys, each once, in loop order, and
      every position from 1 to their number occurs. */
  lemma OneOrder(raw: string, keys: set<string>, order: seq<string>, params: map<string, string>)
    requires (forall k :: k in keys ==> IsName(k)) && PrefixFree(raw, keys)
    requires params.Keys == keys && Enumerates(order, keys)
    ensures SameMeaning(raw, order, params) <==> PositionFree(raw, keys)
    ensures var r := Rewrite(raw, [], order, params);
      && r.1 == Values(Used(order, Lex(raw)), params)
      && |r.1| == |UsedKeys(raw, keys)|
      && forall k :: 1 <= k <= |r.1| ==> Num(Dec(k)) in Lex(r.0)
  {
    hide Lex, PositionalItems, NamedItems, Hit, Render, WellFormed, Dec, Resolved, Used, Values, Rewrite;
    var ts := Lex(raw);
    LexOk(raw);
    assert raw + "" == raw;
    assert NoDuplicates(order) && NoClashes(ts, order);
    var ts', tail' := LoopTokens(ts, "", [], order, params);
    var r := Rewrite(raw, [], order, params);
    assert tail' == "" && ts' == ts' + [] && r.0 == Render(ts') == Render(ts') + "";
    LexEmpty();
    LexRender(ts', "");
    assert Lex(r.0) == Plain(ts');
    assert r.1 == Values(Used(order, ts), params);
    UsedCount(order, ts);
    assert UsedKeys(raw, keys) == set k | k in order && Ref(k) in ts;
    ItemsAgree(ts, ts', r.1, order, params, [], []);
    assert PositionalItems(Plain(ts'), r.1) + [] == EvalPositional(r.0, r.1);
    assert NamedItems(ts, params) + [] == EvalNamed(raw, params);
    forall k | 1 <= k <= |r.1| ensures Num(Dec(k)) in Lex(r.0) {
      var i :| 0 <= i < |ts'| && ts'[i] == Pos(k);
      PlainAt(ts', i);
    }
  }

  lemma LexEmpty()
    ensures Lex("") == []
  {
  }

  lemma {:induction false} PlainAt(ts: seq<Token>, i: nat)
    requires i < |ts|
    ensures Read(ts[i]) in Plain(ts)
  {
    if i > 0 {
      PlainAt(ts[1..], i - 1);
      assert ts[1..][i - 1] == ts[i];
    }
  }

  function Named(keys: set<string>): map<string, string> {
    map k | k in keys :: k
  }

  /** The loop that starts with a key writes `$1` in front of what follows the key in a longer name. */
  lemma ClashText(raw: string, order: seq<string>, keys: set<string>, pre: seq<Token>, named: seq<Token>)
      returns (pre': seq<Token>, tail': string)
    requires (forall k :: k in keys ==> IsName(k) && NoClash(pre, k)) && Enumerates(order, keys)
    requires Lex(raw) == pre + named && named != [] && named[0].Ref? && IsName(named[0].name)
    requires order != [] && order[0] <= named[0].name && order[0] != named[0].name
    ensures var r := Rewrite(raw, [], order, Named(keys));
      && r.0 == Render(pre') + tail' && WellFormed(pre') && Boundary(tail') && "$1" <= tail'
      && AllResolved(pre, pre', r.1, order, Named(keys))
      && r.1 != [] && r.1[0] == order[0] && named[0].name !in r.1
  {
    hide Lex, WellFormed, Dec, Resolved, Used, Values, Contains, ReplaceAll;
    var params, name, tail := Named(keys), named[0].name, Render(named);
    LexOk(raw);
    RenderAppend(pre, named);
    WellFormedPrefix(pre, named);
    assert tail[0] == ':';
    assert Placeholder(order[0]) <= tail by {
      assert Text(named[0]) == Placeholder(name) && Placeholder(order[0]) <= Placeholder(name);
    }
    assert NoClashes(pre, order) && NoDuplicates(order);
    pre', tail' := LoopTokens(pre, tail, [], order, params);
    FirstRound(raw, order, params, pre, tail, name);
  }

  /** After the round of a key no longer name is ever used. */
  lemma FirstRound(raw: string, order: seq<string>, params: map<string, string>, pre: seq<Token>, tail: string,
                   name: string)
    requires order != [] && order[0] <= name && order[0] != name && IsName(name)
    requires forall k :: k in order ==> IsName(k) && k in params && params[k] == k
    requires raw == Render(pre) + tail && WellFormed(pre) && Boundary(tail) && NoClash(pre, order[0])
    requires Placeholder(order[0]) <= tail
    ensures name !in Rewrite(raw, [], order, params).1
  {
    hide WellFormed, Boundary, Contains, ReplaceAll, Render, Positional;
    var key := order[0];
    PrefixContains(tail, Placeholder(key));
    ContainsTokens(pre, tail, key);
    assert Contains(raw, Placeholder(key));
    ReplacedGone(raw, key, 1, name);
    assert [] + [params[key]] == [key];
    NeverUsed(ReplaceAll(raw, Placeholder(key), Positional(1)), [key], order[1..], params, name);
  }

  /** A key that is a proper prefix of a name breaks the meaning when the loop starts with it. */
  lemma ClashBreaks(raw: string, order: seq<string>, keys: set<string>, pre: seq<Token>, named: seq<Token>)
    requires (forall k :: k in keys ==> IsName(k) && NoClash(pre, k)) && Enumerates(order, keys)
    requires Lex(raw) == pre + named && named != [] && named[0].Ref? && IsName(named[0].name)
    requires order != [] && order[0] <= named[0].name && order[0] != named[0].name
    ensures !SameMeaning(raw, order, Named(keys))
  {
    hide Lex, Hit, WellFormed, Dec, Resolved, AllResolved, Used, Values, Rewrite, Contains, Boundary, Render, Plain,
         PositionalItems, NamedItems, IsName, NoClash;
    var params := Named(keys);
    LexOk(raw);
    assert forall t :: t in pre ==> t in Lex(raw);
    var pre', tail' := ClashText(raw, order, keys, pre, named);
    var r := Rewrite(raw, [], order, params);
    LexRender(pre', tail');
    PositionalAppend(Plain(pre'), Lex(tail'), r.1);
    NamedAppend(pre, named, params);
    TailsDiffer(tail', r.1, named, keys, order[0]);
    ItemsAgree(pre, pre', r.1, order, params, PositionalItems(Lex(tail'), r.1), NamedItems(named, params));
  }

  /** What `$1` and the digits that follow it stand for is not what the longer name stands for. */
  lemma TailsDiffer(tail: string, args: seq<string>, named: seq<Token>, keys: set<string>, key: string)
    requires "$1" <= tail && args != [] && args[0] == key
    requires named != [] && named[0].Ref? && named[0].name != key && named[0].name !in args
    ensures PositionalItems(Lex(tail), args) != NamedItems(named, Named(keys))
  {
    hide Lex, Value;
    var d := LexOne(tail);
    var rest :| Lex(tail) == [Num(d)] + rest;
    var a, b := PositionalItems(Lex(tail), args), NamedItems(named, Named(keys));
    assert a[0] == NumItem(d, args)[0] && b[0] == NamedItem(named[0], Named(keys))[0];
    hide PositionalItems, NamedItems;
    assert a[0] != b[0];
  }

  ghost predicate ClashAt(ts: seq<Token>, n: nat, key: string)
    requires n < |ts|
  {
    ts[n].Ref? && key <= ts[n].name && key != ts[n].name
  }

  lemma {:induction false} FirstClash(ts: seq<Token>, keys: set<string>, n: nat) returns (i: nat, key: string)
    requires n <= |ts| && forall k :: k in keys ==> NoClash(ts[..n], k)
    requires exists k :: k in keys && !NoClash(ts, k)
    ensures i < |ts| && key in keys && ClashAt(ts, i, key) && forall k :: k in keys ==> NoClash(ts[..i], k)
    decreases |ts| - n
  {
    assert n < |ts| by {
      assert ts[..|ts|] == ts;
    }
    if k :| k in keys && ClashAt(ts, n, k) {
      i, key := n, k;
    } else {
      assert ts[..n + 1] == ts[..n] + [ts[n]];
      assert forall k :: k in keys ==> !ClashAt(ts, n, k);
      i, key := FirstClash(ts, keys, n + 1);
    }
  }

  /** The rewritten text means what the raw text means, for every choice of values and every iteration
      order, exactly if no key is a proper prefix of a name and no raw `$n` is an argument position. */
  lemma MeaningPreserved(raw: string, keys: set<string>)
    requires forall k :: k in keys ==> IsName(k)
    ensures Faithful(raw, keys) <==> PrefixFree(raw, keys) && PositionFree(raw, keys)
  {
    hide Lex, NoClash, IsName, SameMeaning, PositionFree;
    if PrefixFree(raw, keys) {
      forall params: map<string, string>, order: seq<string> | params.Keys == keys && Enumerates(order, keys)
        ensures SameMeaning(raw, order, params) <==> PositionFree(raw, keys)
      {
        OneOrder(raw, keys, order, params);
      }
      var order := EnumerateSet(keys);
      assert SameMeaning(raw, order, Named(keys)) <==> PositionFree(raw, keys);
    } else {
      BrokenOrder(raw, keys);
    }
  }

  lemma BrokenOrder(raw: string, keys: set<string>)
    requires (forall k :: k in keys ==> IsName(k)) && !PrefixFree(raw, keys)
    ensures !Faithful(raw, keys)
  {
    hide Lex, SameMeaning, NoClash, IsName;
    var ts := Lex(raw);
    assert ts[..0] == [] && forall k :: k in keys ==> NoClash([], k) by {
      NothingClashes(keys);
    }
    var i, key := FirstClash(ts, keys, 0);
    var rest := EnumerateSet(keys - {key});
    var order := [key] + rest;
    assert Enumerates(order, keys);
    assert ts == ts[..i] + ts[i..];
    LexOk(raw);
    NamesOfLex(raw, ts[i]);
    ClashBreaks(raw, order, keys, ts[..i], ts[i..]);
    hide Enumerates;
    assert !SameMeaning(raw, order, Named(keys)) && Named(keys).Keys == keys;
  }

  lemma NothingClashes(keys: set<string>)
    ensures forall k :: k in keys ==> NoClash([], k)
  {
  }

  lemma {:induction false} NamesOfLex(s: string, t: Token)
    requires t in Lex(s) && t.Ref?
    ensures IsName(t.name)
    decreases |s|
  {
    if s[0] == ':' && IdentLen(s[1..]) > 0 {
      var n := IdentLen(s[1..]);
      var rest := Lex(s[1..][n..]);
      if t in rest {
        NamesOfLex(s[1..][n..], t);
      }
    } else if s[0] == '$' {
      NamesOfLex(s[1..][DigitLen(s[1..])..], t);
    } else {
      NamesOfLex(s[1..], t);
    }
  }
}
