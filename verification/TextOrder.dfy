/** Python's order on strings, by code point, and what sorting by it does. */
module TextOrder {

  predicate AtMost(a: string, b: string) {
    a == "" || (b != "" && (a[0] < b[0] || (a[0] == b[0] && AtMost(a[1..], b[1..]))))
  }

  lemma {:induction false} Total(a: string, b: string)
    ensures AtMost(a, b) || AtMost(b, a)
  {
    if a != "" && b != "" { Total(a[1..], b[1..]); }
  }

  lemma {:induction false} Reflexive(a: string)
    ensures AtMost(a, a)
  {
    if a != "" { Reflexive(a[1..]); }
  }

  lemma {:induction false} Transitive(a: string, b: string, c: string)
    requires AtMost(a, b) && AtMost(b, c)
    ensures AtMost(a, c)
  {
    if a != "" && a[0] == b[0] == c[0] { Transitive(a[1..], b[1..], c[1..]); }
  }

  lemma {:induction false} Antisymmetric(a: string, b: string)
    requires AtMost(a, b) && AtMost(b, a)
    ensures a == b
  {
    if a != "" {
      Antisymmetric(a[1..], b[1..]);
      assert a == [a[0]] + a[1..] && b == [b[0]] + b[1..];
    }
  }

  /** A text comes strictly before everything it is a proper prefix of. */
  lemma {:induction false} PrefixFirst(a: string, b: string)
    requires a < b
    ensures AtMost(a, b) && !AtMost(b, a)
  {
    if a != "" {
      assert a == [a[0]] + a[1..] && b == [b[0]] + b[1..];
      assert a[1..] == b[1..][..|a| - 1];
      PrefixFirst(a[1..], b[1..]);
    }
  }

  ghost predicate Ascending(s: seq<string>) {
    forall i, j :: 0 <= i < j < |s| ==> AtMost(s[i], s[j])
  }

  predicate IsLeast(m: string, s: set<string>) {
    m in s && forall t :: t in s ==> AtMost(m, t)
  }

  lemma LeastOfMore(m: string, x: string, rest: set<string>)
    requires IsLeast(m, rest)
    ensures IsLeast(m, rest + {x}) || IsLeast(x, rest + {x})
  {
    Total(m, x);
    Reflexive(x);
    if AtMost(x, m) { forall t | t in rest ensures AtMost(x, t) { Transitive(x, m, t); } }
  }

  lemma {:induction false} LeastExists(s: set<string>)
    requires s != {}
    ensures exists m :: IsLeast(m, s)
    decreases |s|
  {
    var x :| x in s;
    var rest := s - {x};
    assert s == rest + {x};
    if rest == {} {
      Reflexive(x);
      assert IsLeast(x, s);
    } else {
      LeastExists(rest);
      var m :| IsLeast(m, rest);
      LeastOfMore(m, x, rest);
    }
  }

  function Least(s: set<string>): (m: string)
    requires s != {}
    ensures IsLeast(m, s)
  {
    LeastExists(s);
    assert forall a, b :: AtMost(a, b) && AtMost(b, a) ==> a == b by {
      forall a, b | AtMost(a, b) && AtMost(b, a) ensures a == b { Antisymmetric(a, b); }
    }
    var m :| IsLeast(m, s);
    m
  }

  /** The elements in ascending order, each once. */
  function SortedNames(s: set<string>): (r: seq<string>)
    ensures Ascending(r) && |r| == |s|
    ensures forall t :: t in r <==> t in s
    ensures forall i, j :: 0 <= i < j < |r| ==> r[i] != r[j]
    decreases |s|
  {
    if s == {} then [] else
      var m := Least(s);
      var rest := SortedNames(s - {m});
      LeastThenRest(s, m, rest);
      [m] + rest
  }

  lemma LeastThenRest(s: set<string>, m: string, rest: seq<string>)
    requires IsLeast(m, s) && Ascending(rest)
    requires forall t :: t in rest <==> t in s - {m}
    requires forall i, j :: 0 <= i < j < |rest| ==> rest[i] != rest[j]
    ensures Ascending([m] + rest)
    ensures forall t :: t in [m] + rest <==> t in s
    ensures forall i, j :: 0 <= i < j < |[m] + rest| ==> ([m] + rest)[i] != ([m] + rest)[j]
  {
    hide AtMost;
    var r := [m] + rest;
    forall k | 1 <= k < |r| ensures r[k] == rest[k - 1] && r[k] in s && r[k] != m {
      assert rest[k - 1] in rest;
    }
    forall i, j | 0 <= i < j < |r| ensures AtMost(r[i], r[j]) && r[i] != r[j] {
      if i == 0 { assert r[j] in s; } else { assert r[i] == rest[i - 1] && r[j] == rest[j - 1]; }
    }
    forall t ensures t in r <==> t in s {
      if t in s && t != m { assert t in s - {m}; assert t in rest; }
      if t in r && t != m { assert t in rest; }
    }
  }
}
