/** Finite sums of reals over sets and lists of names. */
module Sums {

  ghost function SumOver(s: set<string>, f: string -> real): real {
    if s == {} then 0.0
    else
      var x :| x in s;
      f(x) + SumOver(s - {x}, f)
  }

  /** Any element may be taken out first. */
  lemma {:induction false} SumRemove(s: set<string>, f: string -> real, x: string)
    requires x in s
    ensures SumOver(s, f) == f(x) + SumOver(s - {x}, f)
    decreases s
  {
    var y :| y in s && SumOver(s, f) == f(y) + SumOver(s - {y}, f);
    if y != x {
      SumRemove(s - {y}, f, x);
      SumRemove(s - {x}, f, y);
      assert s - {y} - {x} == s - {x} - {y};
    }
  }

  lemma {:induction false} SumAgree(s: set<string>, f: string -> real, g: string -> real)
    requires forall x :: x in s ==> f(x) == g(x)
    ensures SumOver(s, f) == SumOver(s, g)
    decreases s
  {
    if s != {} {
      var x :| x in s;
      SumRemove(s, f, x);
      SumRemove(s, g, x);
      SumAgree(s - {x}, f, g);
    }
  }

  lemma {:induction false} SumUnion(a: set<string>, b: set<string>, f: string -> real)
    requires a !! b
    ensures SumOver(a + b, f) == SumOver(a, f) + SumOver(b, f)
    decreases a
  {
    if a == {} {
      assert a + b == b;
    } else {
      var x :| x in a;
      SumRemove(a, f, x);
      SumRemove(a + b, f, x);
      assert (a + b) - {x} == (a - {x}) + b;
      SumUnion(a - {x}, b, f);
    }
  }

  lemma {:induction false} SumDifference(s: set<string>, f: string -> real, g: string -> real, h: string -> real)
    requires forall x :: x in s ==> h(x) == f(x) - g(x)
    ensures SumOver(s, h) == SumOver(s, f) - SumOver(s, g)
    decreases s
  {
    if s != {} {
      var x :| x in s;
      SumRemove(s, f, x);
      SumRemove(s, g, x);
      SumRemove(s, h, x);
      SumDifference(s - {x}, f, g, h);
    }
  }

  function Times(p: real, x: real): real {
    p * x
  }

  lemma TimesAdds(p: real, x: real, y: real)
    ensures Times(p, x) + Times(p, y) == Times(p, x + y)
  {
  }

  lemma {:induction false} SumScale(s: set<string>, f: string -> real, g: string -> real, p: real)
    requires forall x :: x in s ==> g(x) == Times(p, f(x))
    ensures SumOver(s, g) == Times(p, SumOver(s, f))
    decreases s
  {
    if s != {} {
      var x :| x in s;
      SumRemove(s, f, x);
      SumRemove(s, g, x);
      SumScale(s - {x}, f, g, p);
      TimesAdds(p, f(x), SumOver(s - {x}, f));
    }
  }

  lemma {:induction false} SumAtMost(s: set<string>, f: string -> real, bound: real)
    requires forall x :: x in s ==> f(x) <= bound
    ensures SumOver(s, f) <= Times(bound, |s| as real)
    decreases s
  {
    if s != {} {
      var x :| x in s;
      SumRemove(s, f, x);
      SumAtMost(s - {x}, f, bound);
      assert |s| == |s - {x}| + 1;
      TimesAdds(bound, |s - {x}| as real, 1.0);
    }
  }

  lemma {:induction false} SumOfZeros(s: set<string>, f: string -> real)
    requires forall x :: x in s ==> f(x) == 0.0
    ensures SumOver(s, f) == 0.0
    decreases s
  {
    if s != {} {
      var x :| x in s;
      SumRemove(s, f, x);
      SumOfZeros(s - {x}, f);
    }
  }

  function Elements(ids: seq<string>): set<string> {
    set x | x in ids
  }

  ghost predicate Distinct(ids: seq<string>) {
    forall i, j :: 0 <= i < j < |ids| ==> ids[i] != ids[j]
  }
}
