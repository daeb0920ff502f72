/** Small types shared by the other modules. */
module Options {
  datatype Option<+T> = None | Some(value: T)
}

module Bytes {
  type Byte = b: int | 0 <= b < 256
}

/** Filtering and adding up sequences. */
module Sequences {
  /** The elements to keep, in order. */
  function Filter<T>(s: seq<T>, keep: T -> bool): seq<T> {
    if s == [] then []
    else Filter(s[..|s|-1], keep) + if keep(s[|s|-1]) then [s[|s|-1]] else []
  }

  lemma {:induction false} FilterMembers<T>(s: seq<T>, keep: T -> bool)
    ensures forall x :: x in Filter(s, keep) <==> x in s && keep(x)
    ensures |Filter(s, keep)| <= |s|
  {
    if s != [] {
      FilterMembers(s[..|s|-1], keep);
      assert s == s[..|s|-1] + [s[|s|-1]];
    }
  }

  lemma {:induction false} FilterJoins<T>(a: seq<T>, b: seq<T>, keep: T -> bool)
    ensures Filter(a + b, keep) == Filter(a, keep) + Filter(b, keep)
  {
    if b == [] {
      assert a + b == a;
    } else {
      FilterJoins(a, b[..|b|-1], keep);
      assert (a + b)[..|a + b| - 1] == a + b[..|b|-1];
    }
  }

  lemma FilterOne<T>(x: T, keep: T -> bool)
    ensures Filter([x], keep) == if keep(x) then [x] else []
  {
    assert [x][..0] == [];
  }

  lemma {:induction false} FilterSame<T>(s: seq<T>, keep: T -> bool, keep': T -> bool)
    requires forall x :: x in s ==> keep(x) == keep'(x)
    ensures Filter(s, keep) == Filter(s, keep')
  {
    if s != [] { FilterSame(s[..|s|-1], keep, keep'); }
  }

  function Total<T>(s: seq<T>, amount: T -> nat): nat {
    if s == [] then 0 else Total(s[..|s|-1], amount) + amount(s[|s|-1])
  }

  lemma {:induction false} TotalJoins<T>(a: seq<T>, b: seq<T>, amount: T -> nat)
    ensures Total(a + b, amount) == Total(a, amount) + Total(b, amount)
  {
    if b == [] {
      assert a + b == a;
    } else {
      TotalJoins(a, b[..|b|-1], amount);
      assert (a + b)[..|a + b| - 1] == a + b[..|b|-1];
    }
  }

  lemma {:induction false} TotalSame<T>(s: seq<T>, amount: T -> nat, amount': T -> nat)
    requires forall x :: x in s ==> amount(x) == amount'(x)
    ensures Total(s, amount) == Total(s, amount')
  {
    if s != [] { TotalSame(s[..|s|-1], amount, amount'); }
  }
}
