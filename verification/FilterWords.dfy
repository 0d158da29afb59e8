/** What the filter in front of the query service accepts, word by word. */
module FilterWords {
  import opened Occurrences
  import opened Rewriter
  import opened SafeSelect

  /** At position i of q stands the word w, in any case of its letters. */
  predicate Reads(u: Unicode, q: string, i: nat, w: string) {
    i + |w| <= |q| && forall k :: 0 <= k < |w| ==> u.lower(q[i + k]) == w[k]
  }

  /** The word stands somewhere in q. */
  predicate Holds(u: Unicode, q: string, w: string) {
    exists i :: 0 <= i <= |q| && Reads(u, q, i, w)
  }

  /** After white space, if any, q goes on with the word select. */
  predicate Opens(u: Unicode, q: string) {
    exists i :: 0 <= i <= |q| && Reads(u, q, i, "select") && forall j :: 0 <= j < i ==> u.space(q[j])
  }

  lemma ReadsTail(u: Unicode, q: string, i: nat, w: string)
    requires 0 < i && q != ""
    ensures Reads(u, q, i, w) <==> Reads(u, q[1..], i - 1, w)
  {
    if i + |w| <= |q| {
      forall k | 0 <= k < |w|
        ensures u.lower(q[1..][i - 1 + k]) == w[k] <==> u.lower(q[i + k]) == w[k]
      {
      }
    }
  }

  lemma ReadsFront(u: Unicode, q: string, w: string)
    ensures Reads(u, q, 0, w) <==> w <= Mapped(u.lower, q)
  {
    var m := Mapped(u.lower, q);
    hide Mapped;
    if |w| <= |q| {
      assert forall k :: 0 <= k < |w| ==> m[k] == u.lower(q[0 + k]);
      assert w <= m <==> forall k :: 0 <= k < |w| ==> m[k] == w[k];
    }
  }

  lemma HoldsTail(u: Unicode, q: string, w: string)
    requires q != ""
    ensures Holds(u, q, w) <==> Reads(u, q, 0, w) || Holds(u, q[1..], w)
  {
    hide Reads;
    if i :| 0 <= i <= |q| && Reads(u, q, i, w) {
      if i > 0 {
        ReadsTail(u, q, i, w);
      }
    }
    if i :| 0 <= i <= |q[1..]| && Reads(u, q[1..], i, w) {
      ReadsTail(u, q, i + 1, w);
    }
  }

  lemma {:induction false} HoldsIs(u: Unicode, q: string, w: string)
    ensures Holds(u, q, w) <==> Contains(Mapped(u.lower, q), w)
  {
    hide Mapped, Reads;
    ReadsFront(u, q, w);
    if q == "" {
    } else {
      hide Holds;
      HoldsTail(u, q, w);
      MappedCons(u.lower, q);
      HoldsIs(u, q[1..], w);
    }
  }

  lemma NotYet(u: Unicode, q: string)
    requires Standard(u) && q != "" && u.space(q[0])
    ensures !Reads(u, q, 0, "select")
  {
    assert "select"[0] == 's' && !u.space('s');
    assert u.lower(q[0 + 0]) == q[0];
  }

  lemma OpensLater(u: Unicode, q: string)
    requires Standard(u) && q != "" && u.space(q[0])
    ensures Opens(u, q) <==> Opens(u, q[1..])
  {
    hide Reads, Standard;
    var rest := q[1..];
    NotYet(u, q);
    if i :| 0 <= i <= |q| && Reads(u, q, i, "select") && forall j :: 0 <= j < i ==> u.space(q[j]) {
      ReadsTail(u, q, i, "select");
      assert forall j :: 0 <= j < i - 1 ==> rest[j] == q[j + 1];
    }
    if i :| 0 <= i <= |rest| && Reads(u, rest, i, "select") && forall j :: 0 <= j < i ==> u.space(rest[j]) {
      ReadsTail(u, q, i + 1, "select");
      assert forall j :: 0 < j < i + 1 ==> q[j] == rest[j - 1];
    }
  }

  lemma OpensNow(u: Unicode, q: string)
    requires q != "" ==> !u.space(q[0])
    ensures Opens(u, q) <==> Reads(u, q, 0, "select")
  {
    if i :| 0 <= i <= |q| && Reads(u, q, i, "select") && forall j :: 0 <= j < i ==> u.space(q[j]) {
      assert i == 0;
    }
  }

  lemma {:induction false} OpensIs(u: Unicode, q: string)
    requires Standard(u)
    ensures Opens(u, q) <==> "select" <= Mapped(u.lower, TrimLeft(u, q))
  {
    hide Opens, Mapped;
    if q != "" && u.space(q[0]) {
      OpensIs(u, q[1..]);
      OpensLater(u, q);
    } else {
      OpensNow(u, q);
      ReadsFront(u, q, "select");
    }
  }

  lemma SelectTrimmed(u: Unicode, q: string)
    requires Standard(u)
    ensures "select" <= Mapped(u.lower, Trim(u, q)) <==> "select" <= Mapped(u.lower, TrimLeft(u, q))
  {
    hide Mapped, TrimLeft, TrimRight;
    assert NoSpaces(u, "select") by {
      forall c | c in "select" ensures !u.space(c) {
        assert c as int < 128;
      }
    }
    TrimRightPrefix(u, TrimLeft(u, q), "select");
  }

  /** The filter accepts exactly the texts that start with select, apart from white space, and hold none
      of eight words, whatever the case of their letters. */
  lemma AcceptedExactly(u: Unicode, q: string)
    requires Standard(u)
    ensures Safe(u, q) <==>
      && Opens(u, q) && !Holds(u, q, "insert") && !Holds(u, q, "update") && !Holds(u, q, "delete")
      && !Holds(u, q, "drop") && !Holds(u, q, "alter") && !Holds(u, q, "create")
      && !Holds(u, q, ";") && !Holds(u, q, "--")
  {
    hide Contains, Mapped, Holds, Opens, Trim, TrimLeft, TrimRight, Standard;
    OpensIs(u, q);
    SelectTrimmed(u, q);
    var t := Mapped(u.lower, Trim(u, q));
    forall w | w in ILLEGAL
      ensures Contains(t, w) <==> Holds(u, q, w)
    {
      IllegalWords(u, w);
      TrimKeeps(u, q, w);
      HoldsIs(u, q, w);
    }
  }

  /** Wherever a text stands whose lower-casing is one of the words, the filter refuses. */
  lemma WordRefused(u: Unicode, pre: string, v: string, post: string, w: string)
    requires Standard(u) && |v| == |w| && forall k :: 0 <= k < |w| ==> u.lower(v[k]) == w[k]
    requires w == "insert" || w == "update" || w == "delete" || w == "drop" || w == "alter" || w == "create"
             || w == ";" || w == "--"
    ensures !Safe(u, pre + v + post)
  {
    hide Safe, Opens, Standard;
    var q := pre + v + post;
    assert forall k :: 0 <= k < |w| ==> q[|pre| + k] == v[k];
    assert Reads(u, q, |pre|, w);
    AcceptedExactly(u, q);
  }

  /** A second statement behind a select is refused, twice over. */
  lemma SecondStatementExample(u: Unicode)
    requires Standard(u)
    ensures !Safe(u, "select 1; drop table candles") && !Safe(u, "SELECT 1 UNION DROP TABLE candles")
  {
    hide Safe;
    WordRefused(u, "select 1", ";", " drop table candles", ";");
    assert "select 1" + ";" + " drop table candles" == "select 1; drop table candles";
    WordRefused(u, "SELECT 1 UNION ", "DROP", " TABLE candles", "drop");
    assert "SELECT 1 UNION " + "DROP" + " TABLE candles" == "SELECT 1 UNION DROP TABLE candles";
  }
}
