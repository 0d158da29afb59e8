/** The named-to-positional query rewriter.

    `PrepareQuery` replaces each `:key` by `$n` textually, one parameter after the other in the
    arbitrary order of Go's map iteration. Its meaning is fixed here by a lexer: named evaluation
    looks up the maximal `:identifier`s of the raw text, positional evaluation the maximal
    `$digits` of the rewritten text. */
module Rewriter {
  import opened Decimals
  import opened Wrappers

  predicate IsIdentChar(c: char) {
    'a' <= c <= 'z' || 'A' <= c <= 'Z' || '0' <= c <= '9' || c == '_'
  }

  predicate IsName(s: string) {
    s != "" && forall c :: c in s ==> IsIdentChar(c)
  }

  // --- strings.Contains and strings.ReplaceAll ---------------------------------------------------

  predicate Contains(s: string, p: string) {
    p <= s || (s != "" && Contains(s[1..], p))
  }

  /** Non-overlapping occurrences, leftmost first. */
  function ReplaceAll(s: string, pat: string, rep: string): string
    requires pat != ""
  {
    if s == "" then ""
    else if pat <= s then rep + ReplaceAll(s[|pat|..], pat, rep)
    else [s[0]] + ReplaceAll(s[1..], pat, rep)
  }

  // --- the rewriter ------------------------------------------------------------------------------

  function Placeholder(key: string): string {
    ":" + key
  }

  function Positional(n: nat): string {
    "$" + Dec(n)
  }

  /** The loop of prepareQuery for one iteration order. */
  function Rewrite(sql: string, args: seq<string>, order: seq<string>, params: map<string, string>)
      : (string, seq<string>)
    requires forall k :: k in order ==> k in params
    decreases |order|
  {
    if order == [] then (sql, args)
    else if Contains(sql, Placeholder(order[0])) then
      Rewrite(ReplaceAll(sql, Placeholder(order[0]), Positional(|args| + 1)),
              args + [params[order[0]]], order[1..], params)
    else Rewrite(sql, args, order[1..], params)
  }

  ghost predicate Enumerates(order: seq<string>, keys: set<string>) {
    NoDuplicates(order) && forall k :: k in order <==> k in keys
  }

  /** The text and the arguments are what the loop gives for this iteration order of all keys. */
  ghost predicate RewrittenBy(raw: string, params: map<string, string>, order: seq<string>, sql: string,
                              args: seq<string>) {
    Enumerates(order, params.Keys) && (sql, args) == Rewrite(raw, [], order, params)
  }

  method PrepareQuery(raw: string, params: map<string, string>) returns (sql: string, args: seq<string>)
    ensures exists order :: RewrittenBy(raw, params, order, sql, args)
  {
    sql, args := raw, [];
    ghost var order := [];
    var idx := 1;
    var remaining := params.Keys;
    while remaining != {}
      invariant remaining <= params.Keys && idx == |args| + 1
      invariant Enumerates(order, params.Keys - remaining)
      invariant (sql, args) == Rewrite(raw, [], order, params)
    {
      var key :| key in remaining;
      RewriteSnoc(raw, [], order, key, params);
      remaining := remaining - {key};
      var placeholder := Placeholder(key);
      if Contains(sql, placeholder) {
        sql := ReplaceAll(sql, placeholder, Positional(idx));
        args := args + [params[key]];
        idx := idx + 1;
      }
      order := order + [key];
    }
    assert RewrittenBy(raw, params, order, sql, args);
  }

  lemma {:induction false} RewriteSnoc(sql: string, args: seq<string>, order: seq<string>, key: string,
                                       params: map<string, string>)
    requires key in params && forall k :: k in order ==> k in params
    ensures var r := Rewrite(sql, args, order, params);
      Rewrite(sql, args, order + [key], params)
      == if Contains(r.0, Placeholder(key)) then
           (ReplaceAll(r.0, Placeholder(key), Positional(|r.1| + 1)), r.1 + [params[key]])
         else r
    decreases |order|
  {
    if order == [] {
      assert [key][1..] == [];
    } else {
      assert (order + [key])[1..] == order[1..] + [key];
      if Contains(sql, Placeholder(order[0])) {
        RewriteSnoc(ReplaceAll(sql, Placeholder(order[0]), Positional(|args| + 1)),
                    args + [params[order[0]]], order[1..], key, params);
      } else {
        RewriteSnoc(sql, args, order[1..], key, params);
      }
    }
  }

  // --- the lexer and the two meanings ------------------------------------------------------------

  /** Ref is a maximal `:identifier`, Num a maximal `$digits`. Pos marks a `$n` that the rewriter
      wrote; the lexer never makes one. */
  datatype Token = Ch(c: char) | Ref(name: string) | Num(digits: string) | Pos(k: nat)

  datatype Item = Lit(c: char) | Val(v: string)

  function IdentLen(s: string): (n: nat)
    ensures n <= |s| && (forall i :: 0 <= i < n ==> IsIdentChar(s[i]))
    ensures n < |s| ==> !IsIdentChar(s[n])
  {
    if s != "" && IsIdentChar(s[0]) then 1 + IdentLen(s[1..]) else 0
  }

  function DigitLen(s: string): (n: nat)
    ensures n <= |s| && (forall i :: 0 <= i < n ==> IsDigit(s[i]))
    ensures n < |s| ==> !IsDigit(s[n])
  {
    if s != "" && IsDigit(s[0]) then 1 + DigitLen(s[1..]) else 0
  }

  function Lex(s: string): seq<Token>
    decreases |s|
  {
    if s == "" then []
    else if s[0] == ':' && IdentLen(s[1..]) > 0 then
      var n := IdentLen(s[1..]);
      [Ref(s[1..][..n])] + Lex(s[1..][n..])
    else if s[0] == '$' then
      var n := DigitLen(s[1..]);
      [Num(s[1..][..n])] + Lex(s[1..][n..])
    else [Ch(s[0])] + Lex(s[1..])
  }

  function Lits(s: string): seq<Item> {
    if s == "" then [] else [Lit(s[0])] + Lits(s[1..])
  }

  function NamedItem(t: Token, params: map<string, string>): seq<Item> {
    match t
    case Ch(c) => [Lit(c)]
    case Ref(n) => if n in params then [Val(params[n])] else Lits(":" + n)
    case Num(d) => Lits("$" + d)
    case Pos(k) => Lits(Positional(k))
  }

  function NumItem(d: string, args: seq<string>): seq<Item> {
    if AllDigits(d) && 1 <= Value(d) <= |args| then [Val(args[Value(d) - 1])] else Lits("$" + d)
  }

  function PositionalItem(t: Token, args: seq<string>): seq<Item> {
    match t
    case Ch(c) => [Lit(c)]
    case Ref(n) => Lits(":" + n)
    case Num(d) => NumItem(d, args)
    case Pos(k) => NumItem(Dec(k), args)
  }

  function NamedItems(ts: seq<Token>, params: map<string, string>): seq<Item> {
    if ts == [] then [] else NamedItem(ts[0], params) + NamedItems(ts[1..], params)
  }

  function PositionalItems(ts: seq<Token>, args: seq<string>): seq<Item> {
    if ts == [] then [] else PositionalItem(ts[0], args) + PositionalItems(ts[1..], args)
  }

  function EvalNamed(raw: string, params: map<string, string>): seq<Item> {
    NamedItems(Lex(raw), params)
  }

  function EvalPositional(sql: string, args: seq<string>): seq<Item> {
    PositionalItems(Lex(sql), args)
  }
}
